/**
The block database as ancestry tracing sees it, the search for the transaction that created an
output, and the one reference semantics that both tracing algorithms are measured against.

A ring member names an output by (amount, offset).  Following "ring member, then the transaction
that created it" from a transaction gives a finite tree.  `Ancestors` is the set of its labels,
`PathCount` the multiplicity of one label, and `IsRingPath` describes its branches by themselves.
*/
module RingChain {
  import opened Wrappers

  type Hash = nat
  type PublicKey = nat

  datatype Ancestor = Ancestor(amount: nat, offset: nat)
  datatype TxIn = Gen | ToKey(amount: nat, offsets: seq<nat>) | OtherIn
  datatype TxOut = KeyOut(key: PublicKey) | OtherOut
  datatype Transaction = Transaction(id: Hash, vin: seq<TxIn>, vout: seq<TxOut>)
  datatype Block = Block(minerTx: Transaction, txHashes: seq<Hash>)
  datatype OutputData = OutputData(height: nat, pubkey: PublicKey)
  datatype Db = Db(blocks: seq<Block>, txs: map<Hash, Transaction>, outputs: map<Ancestor, OutputData>)

  // ----- Ring members of a transaction -----

  predicate IsCoinbase(tx: Transaction) {
    |tx.vin| == 1 && tx.vin[0].Gen?
  }

  /** Inputs a tracer can follow: a lone generation input, or key inputs only. */
  predicate GoodInputs(tx: Transaction) {
    IsCoinbase(tx) || forall i :: 0 <= i < |tx.vin| ==> tx.vin[i].ToKey?
  }

  datatype Ring = Ring(amount: nat, offsets: seq<nat>)

  function RingOf(i: TxIn): Ring {
    match i
    case ToKey(amount, offsets) => Ring(amount, offsets)
    case _ => Ring(0, [])
  }

  function Rings(vin: seq<TxIn>): seq<Ring> {
    seq(|vin|, i requires 0 <= i < |vin| => RingOf(vin[i]))
  }

  function MembersOfRing(r: Ring): seq<Ancestor> {
    seq(|r.offsets|, i requires 0 <= i < |r.offsets| => Ancestor(r.amount, r.offsets[i]))
  }

  function Flatten(rings: seq<Ring>): seq<Ancestor> {
    if rings == [] then [] else MembersOfRing(rings[0]) + Flatten(rings[1..])
  }

  function RingMembers(tx: Transaction): seq<Ancestor> {
    if IsCoinbase(tx) then [] else Flatten(Rings(tx.vin))
  }

  function Members(db: Db, t: Hash): seq<Ancestor> {
    if t in db.txs then RingMembers(db.txs[t]) else []
  }

  // ----- The search for the transaction that created an output -----

  datatype KeySearch = Found | Absent | BadOutput

  /** Scans outputs in order; an output that is not a key output stops the scan. */
  function FindKey(outs: seq<TxOut>, key: PublicKey): KeySearch {
    if outs == [] then Absent
    else match outs[0]
      case OtherOut => BadOutput
      case KeyOut(k) => if k == key then Found else FindKey(outs[1..], key)
  }

  function SearchTxs(db: Db, hashes: seq<Hash>, key: PublicKey): Option<Hash> {
    if hashes == [] || hashes[0] !in db.txs then None
    else match FindKey(db.txs[hashes[0]].vout, key)
      case Found => Some(hashes[0])
      case BadOutput => None
      case Absent => SearchTxs(db, hashes[1..], key)
  }

  function SearchBlock(db: Db, b: Block, key: PublicKey): Option<Hash> {
    match FindKey(b.minerTx.vout, key)
    case Found => Some(b.minerTx.id)
    case BadOutput => None
    case Absent => SearchTxs(db, b.txHashes, key)
  }

  /** The creating transaction: the miner transaction first, then the block's list in order. */
  function Origin(db: Db, m: Ancestor): Option<Hash> {
    if m !in db.outputs || db.outputs[m].height >= |db.blocks| then None
    else SearchBlock(db, db.blocks[db.outputs[m].height], db.outputs[m].pubkey)
  }

  // ----- Chain order -----

  function BlockTxids(b: Block): seq<Hash> {
    [b.minerTx.id] + b.txHashes
  }

  /** Transaction ids in chain order: each block's miner transaction, then its list. */
  function ChainOrder(blocks: seq<Block>): seq<Hash> {
    if blocks == [] then []
    else ChainOrder(blocks[..|blocks| - 1]) + BlockTxids(blocks[|blocks| - 1])
  }

  function IndexOf(s: seq<Hash>, t: Hash): nat {
    if s == [] || s[0] == t then 0 else 1 + IndexOf(s[1..], t)
  }

  /** IndexOf is the first position of t, or the length. */
  lemma {:induction false} IndexOfFirst(s: seq<Hash>, t: Hash)
    ensures IndexOf(s, t) <= |s|
    ensures IndexOf(s, t) < |s| <==> t in s
    ensures IndexOf(s, t) < |s| ==> s[IndexOf(s, t)] == t
    ensures forall i :: 0 <= i < |s| && s[i] == t ==> IndexOf(s, t) <= i
  {
    if s != [] && s[0] != t {
      IndexOfFirst(s[1..], t);
      forall i | 0 <= i < |s| && s[i] == t ensures IndexOf(s, t) <= i {
        assert s[1..][i - 1] == t;
      }
    }
  }

  function Pos(db: Db, t: Hash): nat {
    IndexOf(ChainOrder(db.blocks), t)
  }

  /** What consensus guarantees of a chain: rings only name outputs created earlier. */
  ghost predicate OriginsEarlier(db: Db) {
    forall t, m :: t in db.txs && m in Members(db, t) && Origin(db, m).Some? ==>
                     Pos(db, Origin(db, m).value) < Pos(db, t)
  }

  /** Every block's miner transaction is stored, as a coinbase. */
  predicate MinersStored(db: Db) {
    forall h :: 0 <= h < |db.blocks| ==>
                  db.blocks[h].minerTx.id in db.txs && IsCoinbase(db.txs[db.blocks[h].minerTx.id])
  }

  // ----- Reference semantics -----

  /** How often a is met below ring members i, i+1, ... of transaction t, counting every route. */
  ghost function CountFrom(db: Db, t: Hash, i: nat, a: Ancestor): nat
    requires OriginsEarlier(db) && i <= |Members(db, t)|
    decreases Pos(db, t), |Members(db, t)| - i
  {
    if i == |Members(db, t)| then 0
    else
      var m := Members(db, t)[i];
      (if m == a then 1 else 0)
      + (if Origin(db, m).Some? then CountFrom(db, Origin(db, m).value, 0, a) else 0)
      + CountFrom(db, t, i + 1, a)
  }

  ghost function PathCount(db: Db, t: Hash, a: Ancestor): nat
    requires OriginsEarlier(db)
  {
    CountFrom(db, t, 0, a)
  }

  ghost function AncestorsFrom(db: Db, t: Hash, i: nat): set<Ancestor>
    requires OriginsEarlier(db) && i <= |Members(db, t)|
    decreases Pos(db, t), |Members(db, t)| - i
  {
    if i == |Members(db, t)| then {}
    else
      var m := Members(db, t)[i];
      {m}
      + (if Origin(db, m).Some? then AncestorsFrom(db, Origin(db, m).value, 0) else {})
      + AncestorsFrom(db, t, i + 1)
  }

  /** The outputs met below t, each once. */
  ghost function Ancestors(db: Db, t: Hash): set<Ancestor>
    requires OriginsEarlier(db)
  {
    AncestorsFrom(db, t, 0)
  }

  lemma {:induction false} AncestorsAreCounted(db: Db, t: Hash, i: nat, a: Ancestor)
    requires OriginsEarlier(db) && i <= |Members(db, t)|
    ensures a in AncestorsFrom(db, t, i) <==> CountFrom(db, t, i, a) > 0
    decreases Pos(db, t), |Members(db, t)| - i
  {
    if i < |Members(db, t)| {
      var m := Members(db, t)[i];
      AncestorsAreCounted(db, t, i + 1, a);
      if Origin(db, m).Some? { AncestorsAreCounted(db, Origin(db, m).value, 0, a); }
    }
  }

  /** Every transaction below t is stored with good inputs, and every ring member has an origin. */
  ghost predicate Traceable(db: Db, t: Hash)
    requires OriginsEarlier(db)
    decreases Pos(db, t), |Members(db, t)| + 1
  {
    t in db.txs && GoodInputs(db.txs[t]) && TraceableFrom(db, t, 0)
  }

  ghost predicate TraceableFrom(db: Db, t: Hash, i: nat)
    requires OriginsEarlier(db) && i <= |Members(db, t)|
    decreases Pos(db, t), |Members(db, t)| - i
  {
    i < |Members(db, t)| ==>
      var o := Origin(db, Members(db, t)[i]);
      o.Some? && Traceable(db, o.value) && TraceableFrom(db, t, i + 1)
  }

  // ----- Paths, defined without reference to the chain order -----

  /** p picks a ring member of t, then a ring member of that member's creator, and so on. */
  ghost predicate IsPath(db: Db, t: Hash, p: seq<nat>)
    decreases |p|
  {
    && 0 < |p|
    && p[0] < |Members(db, t)|
    && (1 < |p| ==> Origin(db, Members(db, t)[p[0]]).Some?
                    && IsPath(db, Origin(db, Members(db, t)[p[0]]).value, p[1..]))
  }

  ghost function PathEnd(db: Db, t: Hash, p: seq<nat>): Ancestor
    requires IsPath(db, t, p)
    decreases |p|
  {
    var m := Members(db, t)[p[0]];
    if |p| == 1 then m else PathEnd(db, Origin(db, m).value, p[1..])
  }

  ghost predicate PathTo(db: Db, t: Hash, p: seq<nat>, a: Ancestor) {
    IsPath(db, t, p) && PathEnd(db, t, p) == a
  }

  ghost function Prepend(i: nat, ps: set<seq<nat>>): (r: set<seq<nat>>) {
    set p | p in ps :: [i] + p
  }

  /** The paths to a whose first choice is at least i. */
  ghost function PathsFrom(db: Db, t: Hash, i: nat, a: Ancestor): set<seq<nat>>
    requires OriginsEarlier(db) && i <= |Members(db, t)|
    decreases Pos(db, t), |Members(db, t)| - i
  {
    if i == |Members(db, t)| then {}
    else
      var m := Members(db, t)[i];
      (if m == a then {[i]} else {})
      + (if Origin(db, m).Some? then Prepend(i, PathsFrom(db, Origin(db, m).value, 0, a)) else {})
      + PathsFrom(db, t, i + 1, a)
  }

  lemma {:induction false} PrependSize(i: nat, ps: set<seq<nat>>)
    ensures |Prepend(i, ps)| == |ps|
    decreases |ps|
  {
    if ps != {} {
      var p :| p in ps;
      PrependSize(i, ps - {p});
      forall q | q in ps - {p} ensures [i] + q != [i] + p {
        assert ([i] + q)[1..] == q && ([i] + p)[1..] == p;
      }
      assert Prepend(i, ps) == Prepend(i, ps - {p}) + {[i] + p};
    }
  }

  lemma {:induction false} PathsFromExact(db: Db, t: Hash, i: nat, a: Ancestor, p: seq<nat>)
    requires OriginsEarlier(db) && i <= |Members(db, t)|
    ensures p in PathsFrom(db, t, i, a) <==> PathTo(db, t, p, a) && i <= p[0]
    decreases Pos(db, t), |Members(db, t)| - i
  {
    if i < |Members(db, t)| {
      var m := Members(db, t)[i];
      PathsFromExact(db, t, i + 1, a, p);
      if Origin(db, m).Some? {
        var o := Origin(db, m).value;
        if p in Prepend(i, PathsFrom(db, o, 0, a)) {
          var q :| q in PathsFrom(db, o, 0, a) && p == [i] + q;
          PathsFromExact(db, o, 0, a, q);
          assert p[1..] == q;
        }
        if 1 < |p| && p[0] == i {
          PathsFromExact(db, o, 0, a, p[1..]);
          assert p == [i] + p[1..];
        }
      }
      if |p| == 1 && p[0] == i { assert p == [i]; }
    }
  }

  /** The three groups of paths that make up PathsFrom overlap nowhere. */
  lemma {:induction false} PathGroupsDisjoint(db: Db, t: Hash, i: nat, a: Ancestor, below: set<seq<nat>>)
    requires OriginsEarlier(db) && i < |Members(db, t)|
    requires var o := Origin(db, Members(db, t)[i]);
             below == if o.Some? then Prepend(i, PathsFrom(db, o.value, 0, a)) else {}
    ensures below !! {[i]}
    ensures (below + {[i]}) !! PathsFrom(db, t, i + 1, a)
  {
    var rest := PathsFrom(db, t, i + 1, a);
    forall p | p in rest ensures 0 < |p| && p[0] > i {
      PathsFromExact(db, t, i + 1, a, p);
    }
    forall p | p in below ensures 1 < |p| && p[0] == i {
      var o := Origin(db, Members(db, t)[i]).value;
      var q :| q in PathsFrom(db, o, 0, a) && p == [i] + q;
      PathsFromExact(db, o, 0, a, q);
    }
  }

  lemma {:induction false} PathsFromSize(db: Db, t: Hash, i: nat, a: Ancestor)
    requires OriginsEarlier(db) && i <= |Members(db, t)|
    ensures |PathsFrom(db, t, i, a)| == CountFrom(db, t, i, a)
    decreases Pos(db, t), |Members(db, t)| - i
  {
    if i < |Members(db, t)| {
      var m := Members(db, t)[i];
      var rest := PathsFrom(db, t, i + 1, a);
      PathsFromSize(db, t, i + 1, a);
      var below := {};
      if Origin(db, m).Some? {
        var o := Origin(db, m).value;
        below := Prepend(i, PathsFrom(db, o, 0, a));
        PathsFromSize(db, o, 0, a);
        PrependSize(i, PathsFrom(db, o, 0, a));
      }
      PathGroupsDisjoint(db, t, i, a, below);
      var here := if m == a then {[i]} else {};
      SizeOfThree(here, below, rest);
    }
  }

  lemma {:induction false} SizeOfThree(x: set<seq<nat>>, y: set<seq<nat>>, z: set<seq<nat>>)
    requires x !! y && (x + y) !! z
    ensures |x + y + z| == |x| + |y| + |z|
  {}

  ghost predicate AllPathsTo(db: Db, t: Hash, a: Ancestor, paths: set<seq<nat>>) {
    forall p :: p in paths <==> PathTo(db, t, p, a)
  }

  lemma {:induction false} PathsFromZero(db: Db, t: Hash, a: Ancestor)
    requires OriginsEarlier(db)
    ensures AllPathsTo(db, t, a, PathsFrom(db, t, 0, a))
  {
    forall p ensures p in PathsFrom(db, t, 0, a) <==> PathTo(db, t, p, a) {
      PathsFromExact(db, t, 0, a, p);
    }
  }

  // ----- Paths over the inputs themselves -----

  /** Where input k's members begin in the flattened member list. */
  ghost function FirstMember(vin: seq<TxIn>, k: nat): nat
    requires k <= |vin|
  {
    if k == 0 then 0 else FirstMember(vin, k - 1) + |RingOf(vin[k - 1]).offsets|
  }

  lemma {:induction false} FirstMemberSuffix(vin: seq<TxIn>, k: nat)
    requires k <= |vin|
    ensures var all, i := Flatten(Rings(vin)), FirstMember(vin, k);
            i <= |all| && all[i..] == Flatten(Rings(vin)[k..])
  {
    if k == 0 {
      assert Rings(vin)[0..] == Rings(vin);
    } else {
      FirstMemberSuffix(vin, k - 1);
      FlattenStep(Rings(vin), k - 1, Flatten(Rings(vin)), FirstMember(vin, k - 1));
    }
  }

  /** The ring's members are members i, i+1, ... of the transaction. */
  ghost predicate RingAt(db: Db, t: Hash, i: nat, ring: Ring) {
    && i + |ring.offsets| <= |Members(db, t)|
    && forall j :: 0 <= j < |ring.offsets| ==> Members(db, t)[i + j] == Ancestor(ring.amount, ring.offsets[j])
  }

  lemma {:induction false} FirstMemberEnd(vin: seq<TxIn>)
    ensures FirstMember(vin, |vin|) == |Flatten(Rings(vin))|
  {
    FirstMemberSuffix(vin, |vin|);
    assert Rings(vin)[|vin|..] == [];
  }

  lemma {:induction false} InputAt(db: Db, t: Hash, k: nat)
    requires t in db.txs && !IsCoinbase(db.txs[t]) && k < |db.txs[t].vin|
    ensures RingAt(db, t, FirstMember(db.txs[t].vin, k), RingOf(db.txs[t].vin[k]))
  {
    var vin := db.txs[t].vin;
    var i, ring := FirstMember(vin, k), RingOf(vin[k]);
    FirstMemberSuffix(vin, k);
    FlattenStep(Rings(vin), k, Flatten(Rings(vin)), i);
    assert forall j :: 0 <= j < |ring.offsets| ==> MembersOfRing(ring)[j] == Members(db, t)[i..][j];
  }

  lemma {:induction false} FlattenStep(rings: seq<Ring>, k: nat, ms: seq<Ancestor>, i: nat)
    requires k < |rings| && i <= |ms| && ms[i..] == Flatten(rings[k..])
    ensures MembersOfRing(rings[k]) <= ms[i..]
    ensures i + |rings[k].offsets| <= |ms|
    ensures ms[i + |rings[k].offsets|..] == Flatten(rings[k + 1..])
  {
    assert rings[k..][1..] == rings[k + 1..];
    assert ms[i..] == MembersOfRing(rings[k]) + Flatten(rings[k + 1..]);
    assert ms[i + |rings[k].offsets|..] == ms[i..][|rings[k].offsets|..];
  }

  /** Offset j of input k of a stored transaction that is no coinbase. */
  ghost predicate Names(db: Db, t: Hash, k: nat, j: nat) {
    && t in db.txs && !IsCoinbase(db.txs[t])
    && k < |db.txs[t].vin| && db.txs[t].vin[k].ToKey? && j < |db.txs[t].vin[k].offsets|
  }

  /** The output that the offset names. */
  ghost function Named(db: Db, t: Hash, k: nat, j: nat): Ancestor
    requires Names(db, t, k, j)
  {
    Ancestor(db.txs[t].vin[k].amount, db.txs[t].vin[k].offsets[j])
  }

  ghost function FlatIndex(db: Db, t: Hash, k: nat, j: nat): nat
    requires Names(db, t, k, j)
  {
    FirstMember(db.txs[t].vin, k) + j
  }

  /** Every offset of every input is a member. */
  lemma {:induction false} NamedIsMember(db: Db, t: Hash, k: nat, j: nat)
    requires Names(db, t, k, j)
    ensures FlatIndex(db, t, k, j) < |Members(db, t)| && Members(db, t)[FlatIndex(db, t, k, j)] == Named(db, t, k, j)
  {
    InputAt(db, t, k);
    hide Members;
  }

  lemma {:induction false} FirstMembersIncrease(vin: seq<TxIn>, k: nat, l: nat)
    requires k <= l <= |vin|
    ensures FirstMember(vin, k) <= FirstMember(vin, l)
    decreases l - k
  {
    if k < l { FirstMembersIncrease(vin, k, l - 1); }
  }

  lemma {:induction false} InputOf(vin: seq<TxIn>, i: nat, n: nat) returns (k: nat)
    requires n <= |vin| && i < FirstMember(vin, n)
    ensures k < n && FirstMember(vin, k) <= i < FirstMember(vin, k + 1)
    decreases n
  {
    if i < FirstMember(vin, n - 1) { k := InputOf(vin, i, n - 1); } else { k := n - 1; }
  }

  /** Every member is named by some offset of some input. */
  lemma {:induction false} MemberIsNamed(db: Db, t: Hash, i: nat) returns (k: nat, j: nat)
    requires i < |Members(db, t)|
    ensures Names(db, t, k, j) && FlatIndex(db, t, k, j) == i
  {
    var vin := db.txs[t].vin;
    FirstMemberEnd(vin);
    k := InputOf(vin, i, |vin|);
    j := i - FirstMember(vin, k);
  }

  lemma {:induction false} FlatIndexUnique(db: Db, t: Hash, k: nat, j: nat, k1: nat, j1: nat)
    requires Names(db, t, k, j) && Names(db, t, k1, j1) && FlatIndex(db, t, k, j) == FlatIndex(db, t, k1, j1)
    ensures k == k1 && j == j1
  {
    var vin := db.txs[t].vin;
    if k < k1 { FirstMembersIncrease(vin, k + 1, k1); }
    if k1 < k { FirstMembersIncrease(vin, k1 + 1, k); }
  }

  /** p picks an input and one of its offsets, then the same in the creator of the output named, and so on. */
  ghost predicate IsRingPath(db: Db, t: Hash, p: seq<(nat, nat)>)
    decreases |p|
  {
    && 0 < |p|
    && Names(db, t, p[0].0, p[0].1)
    && (1 < |p| ==> Origin(db, Named(db, t, p[0].0, p[0].1)).Some?
                    && IsRingPath(db, Origin(db, Named(db, t, p[0].0, p[0].1)).value, p[1..]))
  }

  ghost function RingPathEnd(db: Db, t: Hash, p: seq<(nat, nat)>): Ancestor
    requires IsRingPath(db, t, p)
    decreases |p|
  {
    var m := Named(db, t, p[0].0, p[0].1);
    if |p| == 1 then m else RingPathEnd(db, Origin(db, m).value, p[1..])
  }

  ghost predicate RingPathTo(db: Db, t: Hash, p: seq<(nat, nat)>, a: Ancestor) {
    IsRingPath(db, t, p) && RingPathEnd(db, t, p) == a
  }

  /** The same path by positions in the member lists. */
  ghost function Flat(db: Db, t: Hash, p: seq<(nat, nat)>): seq<nat>
    requires IsRingPath(db, t, p)
    decreases |p|
  {
    [FlatIndex(db, t, p[0].0, p[0].1)]
    + if |p| == 1 then [] else Flat(db, Origin(db, Named(db, t, p[0].0, p[0].1)).value, p[1..])
  }

  lemma {:induction false} FlatIsPath(db: Db, t: Hash, p: seq<(nat, nat)>)
    requires IsRingPath(db, t, p)
    ensures |Flat(db, t, p)| == |p| && IsPath(db, t, Flat(db, t, p))
    ensures PathEnd(db, t, Flat(db, t, p)) == RingPathEnd(db, t, p)
    decreases |p|
  {
    hide Members, Names, Named, FlatIndex, Origin;
    NamedIsMember(db, t, p[0].0, p[0].1);
    if |p| > 1 {
      var o := Origin(db, Named(db, t, p[0].0, p[0].1)).value;
      FlatIsPath(db, o, p[1..]);
      assert Flat(db, t, p)[1..] == Flat(db, o, p[1..]);
    }
  }

  lemma {:induction false} PathIsFlat(db: Db, t: Hash, q: seq<nat>) returns (p: seq<(nat, nat)>)
    requires IsPath(db, t, q)
    ensures IsRingPath(db, t, p) && Flat(db, t, p) == q
    decreases |q|
  {
    hide Members, Names, Named, FlatIndex, Origin;
    var k, j := MemberIsNamed(db, t, q[0]);
    NamedIsMember(db, t, k, j);
    if |q| == 1 {
      p := [(k, j)];
    } else {
      var rest := PathIsFlat(db, Origin(db, Named(db, t, k, j)).value, q[1..]);
      p := [(k, j)] + rest;
      assert p[1..] == rest;
    }
  }

  lemma {:induction false} FlatUnique(db: Db, t: Hash, p: seq<(nat, nat)>, p1: seq<(nat, nat)>)
    requires IsRingPath(db, t, p) && IsRingPath(db, t, p1) && Flat(db, t, p) == Flat(db, t, p1)
    ensures p == p1
    decreases |p|
  {
    FlatIsPath(db, t, p);
    FlatIsPath(db, t, p1);
    hide Members, Named, FlatIndex, Origin, IsPath, PathEnd, RingPathEnd;
    assert Flat(db, t, p)[0] == Flat(db, t, p1)[0];
    FlatIndexUnique(db, t, p[0].0, p[0].1, p1[0].0, p1[0].1);
    if |p| > 1 {
      var o := Origin(db, Named(db, t, p[0].0, p[0].1)).value;
      assert Flat(db, t, p)[1..] == Flat(db, o, p[1..]) && Flat(db, t, p1)[1..] == Flat(db, o, p1[1..]);
      FlatUnique(db, o, p[1..], p1[1..]);
    }
    assert p == [p[0]] + p[1..] && p1 == [p1[0]] + p1[1..];
  }

  ghost predicate FlatIn(db: Db, t: Hash, p: seq<(nat, nat)>, paths: set<seq<nat>>) {
    IsRingPath(db, t, p) && Flat(db, t, p) in paths
  }

  lemma {:induction false} RingPathsOf(db: Db, t: Hash, paths: set<seq<nat>>) returns (ringPaths: set<seq<(nat, nat)>>)
    requires forall q :: q in paths ==> IsPath(db, t, q)
    ensures |ringPaths| == |paths| && forall p :: p in ringPaths <==> FlatIn(db, t, p, paths)
    decreases |paths|
  {
    ringPaths := {};
    if paths != {} {
      hide IsPath, IsRingPath, Flat;
      var q :| q in paths;
      var p := PathIsFlat(db, t, q);
      var rest := RingPathsOf(db, t, paths - {q});
      ringPaths := rest + {p};
      forall p1 ensures p1 in ringPaths <==> FlatIn(db, t, p1, paths) {
        if FlatIn(db, t, p1, paths) && Flat(db, t, p1) == q { FlatUnique(db, t, p, p1); }
        assert p1 in rest <==> FlatIn(db, t, p1, paths - {q});
      }
      assert p !in rest;
    }
  }

  ghost predicate AllRingPathsTo(db: Db, t: Hash, a: Ancestor, ringPaths: set<seq<(nat, nat)>>) {
    forall p :: p in ringPaths <==> RingPathTo(db, t, p, a)
  }

  lemma {:induction false} RingPathIsPath(db: Db, t: Hash, p: seq<(nat, nat)>, a: Ancestor, paths: set<seq<nat>>)
    requires AllPathsTo(db, t, a, paths)
    ensures RingPathTo(db, t, p, a) <==> FlatIn(db, t, p, paths)
  {
    hide IsPath, PathEnd, IsRingPath, RingPathEnd, Flat;
    if IsRingPath(db, t, p) {
      FlatIsPath(db, t, p);
      assert Flat(db, t, p) in paths <==> PathTo(db, t, Flat(db, t, p), a);
    }
  }

  /** PathCount is the number of ways to walk from t to a, input by input and offset by offset. */
  lemma {:induction false} PathCountCountsPaths(db: Db, t: Hash, a: Ancestor)
    requires OriginsEarlier(db)
    ensures exists ringPaths :: AllRingPathsTo(db, t, a, ringPaths) && |ringPaths| == PathCount(db, t, a)
  {
    var paths := PathsFrom(db, t, 0, a);
    PathsFromZero(db, t, a);
    PathsFromSize(db, t, 0, a);
    hide PathsFrom, CountFrom, IsRingPath, RingPathEnd, PathEnd;
    assert forall q :: q in paths ==> PathTo(db, t, q, a);
    var ringPaths := RingPathsOf(db, t, paths);
    forall p ensures p in ringPaths <==> RingPathTo(db, t, p, a) {
      RingPathIsPath(db, t, p, a, paths);
    }
    assert AllRingPathsTo(db, t, a, ringPaths);
  }

  /** An output is an ancestor exactly when some finite walk over inputs and offsets reaches it. */
  lemma {:induction false} AncestorsAreReachable(db: Db, t: Hash, a: Ancestor)
    requires OriginsEarlier(db)
    ensures a in Ancestors(db, t) <==> exists p :: RingPathTo(db, t, p, a)
  {
    AncestorsAreCounted(db, t, 0, a);
    PathCountCountsPaths(db, t, a);
    hide AncestorsFrom, CountFrom, IsRingPath, RingPathEnd;
    var ringPaths :| AllRingPathsTo(db, t, a, ringPaths) && |ringPaths| == PathCount(db, t, a);
    if ringPaths != {} {
      var p :| p in ringPaths;
      assert RingPathTo(db, t, p, a);
    }
  }

  // ----- What the search finds -----

  predicate HasKey(outs: seq<TxOut>, key: PublicKey) {
    exists i :: 0 <= i < |outs| && outs[i] == KeyOut(key)
  }

  lemma {:induction false} FindKeyMeaning(outs: seq<TxOut>, key: PublicKey)
    ensures FindKey(outs, key).Found? ==> HasKey(outs, key)
    ensures FindKey(outs, key).Absent? ==> !HasKey(outs, key)
    ensures FindKey(outs, key).BadOutput? ==> OtherOut in outs
  {
    if outs != [] {
      FindKeyMeaning(outs[1..], key);
      if HasKey(outs, key) && outs[0] != KeyOut(key) {
        var i :| 0 <= i < |outs| && outs[i] == KeyOut(key);
        assert outs[1..][i - 1] == KeyOut(key);
      }
    }
  }

  lemma {:induction false} SearchTxsMeaning(db: Db, hashes: seq<Hash>, key: PublicKey)
    ensures var r := SearchTxs(db, hashes, key);
            r.Some? ==> exists j :: 0 <= j < |hashes| && hashes[j] == r.value && r.value in db.txs
                                    && HasKey(db.txs[r.value].vout, key)
                                    && forall i :: 0 <= i < j ==>
                                                     hashes[i] in db.txs && !HasKey(db.txs[hashes[i]].vout, key)
  {
    if hashes != [] && hashes[0] in db.txs {
      FindKeyMeaning(db.txs[hashes[0]].vout, key);
      SearchTxsMeaning(db, hashes[1..], key);
      var r := SearchTxs(db, hashes, key);
      if FindKey(db.txs[hashes[0]].vout, key).Absent? && r.Some? {
        var rest := hashes[1..];
        var j :| 0 <= j < |rest| && rest[j] == r.value && r.value in db.txs && HasKey(db.txs[r.value].vout, key)
                 && forall i :: 0 <= i < j ==> rest[i] in db.txs && !HasKey(db.txs[rest[i]].vout, key);
        forall i | 0 <= i < j + 1 ensures hashes[i] in db.txs && !HasKey(db.txs[hashes[i]].vout, key) {
          if i > 0 { assert hashes[i] == rest[i - 1]; }
        }
        assert hashes[j + 1] == r.value;
      }
    }
  }

  /**
  A found origin sits in the block the output table names, carries the output's key, and nothing
  that precedes it in that block does.
  */
  lemma {:induction false} OriginMeaning(db: Db, m: Ancestor)
    requires Origin(db, m).Some?
    ensures m in db.outputs && db.outputs[m].height < |db.blocks|
    ensures var b, key, o := db.blocks[db.outputs[m].height], db.outputs[m].pubkey, Origin(db, m).value;
            || (o == b.minerTx.id && HasKey(b.minerTx.vout, key))
            || (!HasKey(b.minerTx.vout, key)
                && exists j :: 0 <= j < |b.txHashes| && b.txHashes[j] == o && o in db.txs && HasKey(db.txs[o].vout, key)
                               && forall i :: 0 <= i < j ==>
                                                b.txHashes[i] in db.txs && !HasKey(db.txs[b.txHashes[i]].vout, key))
  {
    var b, key := db.blocks[db.outputs[m].height], db.outputs[m].pubkey;
    FindKeyMeaning(b.minerTx.vout, key);
    SearchTxsMeaning(db, b.txHashes, key);
  }

  // ----- Exactly when the search succeeds -----

  /** The scan reaches an output with the key before it meets an output of another type. */
  ghost predicate Reaches(outs: seq<TxOut>, key: PublicKey) {
    exists i :: 0 <= i < |outs| && outs[i] == KeyOut(key) && OtherOut !in outs[..i]
  }

  /** The scan passes all outputs without meeting the key or an output of another type. */
  predicate Passes(outs: seq<TxOut>, key: PublicKey) {
    OtherOut !in outs && KeyOut(key) !in outs
  }

  lemma {:induction false} FindKeyIff(outs: seq<TxOut>, key: PublicKey)
    ensures FindKey(outs, key).Found? <==> Reaches(outs, key)
    ensures FindKey(outs, key).Absent? <==> Passes(outs, key)
  {
    if outs != [] {
      var rest := outs[1..];
      FindKeyIff(rest, key);
      assert outs == [outs[0]] + rest;
      if outs[0] == KeyOut(key) {
        assert outs[..0] == [];
      } else if outs[0].KeyOut? {
        if Reaches(rest, key) {
          var i :| 0 <= i < |rest| && rest[i] == KeyOut(key) && OtherOut !in rest[..i];
          assert outs[..i + 1] == [outs[0]] + rest[..i] && outs[i + 1] == KeyOut(key);
        }
        if Reaches(outs, key) {
          var i :| 0 <= i < |outs| && outs[i] == KeyOut(key) && OtherOut !in outs[..i];
          assert outs[..i] == [outs[0]] + rest[..i - 1] && rest[i - 1] == KeyOut(key);
        }
      }
    }
  }

  /** Entry j of the list is stored and reaches the key, and all entries before it are stored and pass. */
  ghost predicate FirstWith(db: Db, hashes: seq<Hash>, key: PublicKey, j: nat) {
    && j < |hashes| && hashes[j] in db.txs && Reaches(db.txs[hashes[j]].vout, key)
    && forall i :: 0 <= i < j ==> hashes[i] in db.txs && Passes(db.txs[hashes[i]].vout, key)
  }

  lemma {:induction false} FirstWithStep(db: Db, hashes: seq<Hash>, key: PublicKey, j: nat)
    requires hashes != [] && hashes[0] in db.txs && Passes(db.txs[hashes[0]].vout, key)
    ensures FirstWith(db, hashes[1..], key, j) <==> FirstWith(db, hashes, key, j + 1)
  {
    hide Reaches, Passes;
    var rest := hashes[1..];
    assert forall i :: 0 <= i < |rest| ==> rest[i] == hashes[i + 1];
    if FirstWith(db, hashes, key, j + 1) {
      forall i | 0 <= i < j ensures rest[i] in db.txs && Passes(db.txs[rest[i]].vout, key) {
        assert hashes[i + 1] in db.txs;
      }
    }
  }

  lemma {:induction false} SearchTxsIff(db: Db, hashes: seq<Hash>, key: PublicKey, o: Hash)
    ensures SearchTxs(db, hashes, key) == Some(o) <==> exists j: nat :: FirstWith(db, hashes, key, j) && hashes[j] == o
  {
    if hashes != [] && hashes[0] in db.txs {
      var outs := db.txs[hashes[0]].vout;
      FindKeyIff(outs, key);
      FindKeyOnce(outs, key);
      hide Reaches, Passes, FindKey;
      if Passes(outs, key) {
        SearchTxsIff(db, hashes[1..], key, o);
        forall j: nat ensures FirstWith(db, hashes[1..], key, j) <==> FirstWith(db, hashes, key, j + 1) {
          FirstWithStep(db, hashes, key, j);
        }
        if SearchTxs(db, hashes, key) == Some(o) {
          var j: nat :| FirstWith(db, hashes[1..], key, j) && hashes[1..][j] == o;
          assert FirstWith(db, hashes, key, j + 1) && hashes[j + 1] == o;
        }
        if exists j: nat :: FirstWith(db, hashes, key, j) && hashes[j] == o {
          var j: nat :| FirstWith(db, hashes, key, j) && hashes[j] == o;
          assert FirstWith(db, hashes[1..], key, j - 1) && hashes[1..][j - 1] == o;
        }
      } else if Reaches(outs, key) {
        assert FirstWith(db, hashes, key, 0);
      }
    }
  }

  lemma {:induction false} FindKeyOnce(outs: seq<TxOut>, key: PublicKey)
    ensures !(Reaches(outs, key) && Passes(outs, key))
  {}

  /**
  The creator found is o exactly when the output is listed at a height below the top and, in that
  block, the miner transaction reaches the key and is o, or it passes and o is the first listed
  transaction to reach it, all before it being stored and passing.
  */
  lemma {:induction false} OriginIff(db: Db, m: Ancestor, o: Hash)
    ensures Origin(db, m) == Some(o)
       <==> && m in db.outputs && db.outputs[m].height < |db.blocks|
            && var b, key := db.blocks[db.outputs[m].height], db.outputs[m].pubkey;
            || (Reaches(b.minerTx.vout, key) && o == b.minerTx.id)
            || (Passes(b.minerTx.vout, key) && exists j: nat :: FirstWith(db, b.txHashes, key, j) && b.txHashes[j] == o)
  {
    if m in db.outputs && db.outputs[m].height < |db.blocks| {
      var b, key := db.blocks[db.outputs[m].height], db.outputs[m].pubkey;
      FindKeyIff(b.minerTx.vout, key);
      FindKeyOnce(b.minerTx.vout, key);
      SearchTxsIff(db, b.txHashes, key, o);
      hide Reaches, Passes, FindKey, SearchTxs, FirstWith;
    }
  }
}
