/**
  Block storage: saveBlock and its put functions over five databases with write batches, the entry for the
  latest block, and getProof over the records a saved block leaves.
  A database is a map and a batch the list of its pending writes.  Base64, decimal, JSON and CBOR text
  stands for the value it encodes, and a key for the text KeyText gives it.
 */
module BlockStorage {
  import opened Wrappers
  import opened ByteStrings
  import opened ModArith
  import Decimal
  import opened WriteBatches
  import Tree = MerkleTree

  type Id = string

  datatype Key =
    | HeaderKey(id: Id, suffix: string)
    | HeightKey(n: nat)
    | RawKey(id: Id)
    | RawHashKey(id: Id)
    | LatestId
    | LatestHeight
    | TxContent(id: Id)
    | TxPosition(id: Id)
    | TxBlock(id: Id)
    | BlockTree(id: Id)
    | BlockCount(id: Id)

  datatype Value =
    | Text(text: string)
    | Number(n: nat)
    | Raw(bytes: Bytes)
    | Ids(ids: seq<Id>)
    | Digests(digests: seq<Bytes>)

  type Db = map<Key, Value>
  type Batch = seq<(Key, Value)>

  /** A transaction: its id and its content. */
  datatype Tx = Tx(id: Id, content: Bytes)

  /** A block as saveBlock gets it; None stands for a JSON value that is not an array. */
  datatype Block = Block(id: Id, height: nat, fields: map<string, string>, signatures: Option<seq<Bytes>>,
                         txids: Option<seq<Id>>, txs: Option<seq<Tx>>, tree: seq<Bytes>, count: string, raw: Bytes)

  const HEADER_FIELDS: seq<(string, string)> :=
    [("bID", "_bID"), ("ver", "_ver"), ("cID", "_cID"), ("time", "_time"), ("hgt", "_hgt"), ("SSig", "_ssig"),
     ("mID", "_mID"), ("prevbID", "_prevbID"), ("prevH", "_prevH"), ("txrt", "_txrt"), ("txids", "_txids")]

  /** The position of the height among them. */
  const HGT: nat := 4

  // ---- keys ----

  predicate IdText(id: Id) { '_' !in id }

  /** The text of a key in its database. */
  function KeyText(k: Key): string {
    match k
    case HeaderKey(id, suffix) => "B" + id + suffix
    case HeightKey(n) => "H" + Decimal.Text(n)
    case RawKey(id) => "R" + id
    case RawHashKey(id) => "R" + id + "_hash"
    case LatestId => "LbID"
    case LatestHeight => "Lhgt"
    case TxContent(id) => "T" + id + "_c"
    case TxPosition(id) => "T" + id + "_mPos"
    case TxBlock(id) => "T" + id + "_bID"
    case BlockTree(id) => "T" + id + "_mtree"
    case BlockCount(id) => "T" + id + "_txCnt"
  }

  /** A key of the program: identifiers are base64 text, header suffixes begin with '_'. */
  predicate KeyOk(k: Key) {
    match k
    case HeaderKey(id, suffix) => IdText(id) && suffix != "" && suffix[0] == '_'
    case HeightKey(_) => true
    case LatestId => true
    case LatestHeight => true
    case _ => IdText(k.id)
  }

  /** The identifier and what follows it, from the text. */
  lemma SplitAtMark(id: Id, suffix: string, id': Id, suffix': string)
    requires IdText(id) && IdText(id') && id + suffix == id' + suffix'
    requires (suffix == "" || suffix[0] == '_') && (suffix' == "" || suffix'[0] == '_')
    ensures id == id' && suffix == suffix'
  {
    var text := id + suffix;
    assert forall i | 0 <= i < |id| :: text[i] == id[i];
    assert forall i | 0 <= i < |id'| :: text[i] == id'[i];
    assert |id| < |text| ==> text[|id|] == suffix[0];
    assert |id'| < |text| ==> text[|id'|] == suffix'[0];
    assert id == text[..|id|] && id' == text[..|id'|] && suffix == text[|id|..] && suffix' == text[|id'|..];
  }

  function IdOf(k: Key): string {
    match k
    case HeightKey(n) => Decimal.Text(n)
    case LatestId => "bID"
    case LatestHeight => "hgt"
    case _ => k.id
  }

  function SuffixOf(k: Key): string {
    match k
    case HeaderKey(_, suffix) => suffix
    case RawHashKey(_) => "_hash"
    case TxContent(_) => "_c"
    case TxPosition(_) => "_mPos"
    case TxBlock(_) => "_bID"
    case BlockTree(_) => "_mtree"
    case BlockCount(_) => "_txCnt"
    case _ => ""
  }

  lemma KeyParts(k: Key)
    requires KeyOk(k)
    ensures KeyText(k) == KeyText(k)[..1] + (IdOf(k) + SuffixOf(k)) && IdText(IdOf(k))
    ensures SuffixOf(k) == "" || SuffixOf(k)[0] == '_'
  {
  }

  /** Different keys of the program have different texts, so a map over keys is a map over texts. */
  lemma KeyTextInjective(k: Key, k': Key)
    requires KeyOk(k) && KeyOk(k') && KeyText(k) == KeyText(k')
    ensures k == k'
  {
    KeyParts(k);
    KeyParts(k');
    var rest := KeyText(k)[1..];
    assert rest == IdOf(k) + SuffixOf(k) && rest == IdOf(k') + SuffixOf(k');
    SplitAtMark(IdOf(k), SuffixOf(k), IdOf(k'), SuffixOf(k'));
    assert KeyText(k)[0] == KeyText(k')[0];
    if k.HeightKey? {
      Decimal.TextInjective(k.n, k'.n);
    } else {
      assert |"_c"| == 2 && |"_mPos"| == 5 && |"_bID"| == 4 && |"_mtree"| == 6 && |"_txCnt"| == 6 && |"_hash"| == 5;
      assert "_mtree"[1] != "_txCnt"[1];
    }
  }

  // ---- what a block writes ----

  function Field(b: Block, name: string): Value {
    if name == "bID" then Text(b.id)
    else if name == "hgt" then Number(b.height)
    else Text(if name in b.fields then b.fields[name] else "")
  }

  function Arrays(b: Block): bool { b.signatures.Some? && b.txids.Some? && b.txs.Some? }

  function FieldWrites(b: Block, name: string, suffix: string): Batch
    requires b.signatures.Some? && b.txids.Some?
  {
    if name == "SSig" then
      [(HeaderKey(b.id, suffix + "_c"), Digests(b.signatures.value)),
       (HeaderKey(b.id, suffix + "_n"), Number(|b.signatures.value|))]
    else if name == "txids" then [(HeaderKey(b.id, suffix), Ids(b.txids.value))]
    else [(HeaderKey(b.id, suffix), Field(b, name))]
  }

  /** The writes for the first n of the header fields. */
  function HeaderWrites(b: Block, fields: seq<(string, string)>, n: nat): Batch
    requires b.signatures.Some? && b.txids.Some? && n <= |fields|
  {
    if n == 0 then []
    else HeaderWrites(b, fields, n - 1) + FieldWrites(b, fields[n - 1].0, fields[n - 1].1)
  }

  function HeightWrites(b: Block): Batch { [(HeightKey(b.height), Text(b.id))] }

  function RawWrites(H: Tree.Hash, b: Block): Batch { [(RawKey(b.id), Raw(b.raw)), (RawHashKey(b.id), Raw(H(b.raw)))] }

  /** The height getNthBlockLinkInfo finds for the latest block: 0 when there is none. */
  function LatestKnown(header: Db, latest: Db): nat {
    if LatestId in latest && latest[LatestId].Text? && latest[LatestId].text != "" then
      var k := HeaderKey(latest[LatestId].text, "_hgt");
      if k in header && header[k].Number? then header[k].n else 0
    else 0
  }

  function LatestWrites(header: Db, latest: Db, b: Block): Batch {
    if LatestKnown(header, latest) >= b.height then []
    else [(LatestId, Text(b.id)), (LatestHeight, Number(b.height))]
  }

  /** The writes for the first n transactions. */
  function TxWrites(b: Block, n: nat): Batch
    requires b.txs.Some? && n <= |b.txs.value|
  {
    if n == 0 then []
    else
      var tx := b.txs.value[n - 1];
      TxWrites(b, n - 1) + [(TxContent(tx.id), Raw(tx.content)), (TxPosition(tx.id), Number(n - 1)), (TxBlock(tx.id), Text(b.id))]
  }

  function BodyWrites(b: Block): Batch
    requires b.txs.Some?
  {
    TxWrites(b, |b.txs.value|) + [(BlockTree(b.id), Digests(b.tree)), (BlockCount(b.id), Text(b.count))]
  }

  datatype Dbs = Dbs(header: Db, height: Db, raw: Db, latest: Db, transaction: Db)

  /** All five databases after a block is saved. */
  function Saved(H: Tree.Hash, d: Dbs, b: Block): Dbs {
    if !Arrays(b) then d
    else Dbs(Written(d.header, HeaderWrites(b, HEADER_FIELDS, |HEADER_FIELDS|)), Written(d.height, HeightWrites(b)),
             Written(d.raw, RawWrites(H, b)), Written(d.latest, LatestWrites(d.header, d.latest, b)),
             Written(d.transaction, BodyWrites(b)))
  }

  // ---- the storage object ----

  class Storage {
    const H: Tree.Hash
    const lookup: map<Bytes, Bytes>
    const h: nat
    var dbHeader: Db
    var dbHeight: Db
    var dbRaw: Db
    var dbLatest: Db
    var dbTransaction: Db
    var batchHeader: Batch
    var batchHeight: Batch
    var batchRaw: Batch
    var batchLatest: Batch
    var batchTransaction: Batch

    ghost function Contents(): Dbs
      reads this
    {
      Dbs(dbHeader, dbHeight, dbRaw, dbLatest, dbTransaction)
    }

    ghost predicate Clean()
      reads this
    {
      batchHeader == [] && batchHeight == [] && batchRaw == [] && batchLatest == [] && batchTransaction == []
    }

    ghost predicate Hashing() { h >= 1 && Tree.Sha(H) && Tree.Right(H, lookup) }

    method PutBlockHeader(b: Block) returns (ok: bool)
      modifies this`batchHeader
      ensures ok <==> b.signatures.Some? && b.txids.Some?
      ensures ok ==> batchHeader == old(batchHeader) + HeaderWrites(b, HEADER_FIELDS, |HEADER_FIELDS|)
    {
      assert HEADER_FIELDS[5].0 == "SSig" && HEADER_FIELDS[10].0 == "txids";
      for i := 0 to |HEADER_FIELDS|
        invariant i > 5 ==> b.signatures.Some?
        invariant i > 10 ==> b.txids.Some?
        invariant b.signatures.Some? && b.txids.Some? ==> batchHeader == old(batchHeader) + HeaderWrites(b, HEADER_FIELDS, i)
      {
        var name, suffix := HEADER_FIELDS[i].0, HEADER_FIELDS[i].1;
        if name == "SSig" {
          if b.signatures.None? {
            return false;
          }
          batchHeader := batchHeader + [(HeaderKey(b.id, suffix + "_c"), Digests(b.signatures.value))];
          batchHeader := batchHeader + [(HeaderKey(b.id, suffix + "_n"), Number(|b.signatures.value|))];
        } else if name == "txids" {
          if b.txids.None? {
            return false;
          }
          batchHeader := batchHeader + [(HeaderKey(b.id, suffix), Ids(b.txids.value))];
        } else {
          batchHeader := batchHeader + [(HeaderKey(b.id, suffix), Field(b, name))];
        }
      }
      ok := true;
    }

    method PutBlockHeight(b: Block)
      modifies this`batchHeight
      ensures batchHeight == old(batchHeight) + HeightWrites(b)
    {
      batchHeight := batchHeight + [(HeightKey(b.height), Text(b.id))];
    }

    method PutBlockRaw(b: Block)
      modifies this`batchRaw
      ensures batchRaw == old(batchRaw) + RawWrites(H, b)
    {
      batchRaw := batchRaw + [(RawKey(b.id), Raw(b.raw))];
      batchRaw := batchRaw + [(RawHashKey(b.id), Raw(H(b.raw)))];
    }

    method PutLatestBlockHeader(b: Block)
      modifies this`batchLatest
      ensures batchLatest == old(batchLatest) + LatestWrites(dbHeader, dbLatest, b)
    {
      if LatestKnown(dbHeader, dbLatest) >= b.height {
        return;
      }
      batchLatest := batchLatest + [(LatestId, Text(b.id))];
      batchLatest := batchLatest + [(LatestHeight, Number(b.height))];
    }

    method PutTransaction(b: Block) returns (ok: bool)
      modifies this`batchTransaction
      ensures ok <==> b.txs.Some?
      ensures ok ==> batchTransaction == old(batchTransaction) + BodyWrites(b)
    {
      if b.txs.None? {
        return false;
      }
      for i := 0 to |b.txs.value|
        invariant batchTransaction == old(batchTransaction) + TxWrites(b, i)
      {
        var tx := b.txs.value[i];
        batchTransaction := batchTransaction + [(TxContent(tx.id), Raw(tx.content))];
        batchTransaction := batchTransaction + [(TxPosition(tx.id), Number(i))];
        batchTransaction := batchTransaction + [(TxBlock(tx.id), Text(b.id))];
      }
      batchTransaction := batchTransaction + [(BlockTree(b.id), Digests(b.tree))];
      batchTransaction := batchTransaction + [(BlockCount(b.id), Text(b.count))];
      ok := true;
    }

    method CommitBatchAll()
      modifies this
      ensures Clean()
      ensures dbHeader == Written(old(dbHeader), old(batchHeader)) && dbHeight == Written(old(dbHeight), old(batchHeight))
      ensures dbRaw == Written(old(dbRaw), old(batchRaw)) && dbLatest == Written(old(dbLatest), old(batchLatest))
      ensures dbTransaction == Written(old(dbTransaction), old(batchTransaction))
    {
      dbHeader := Written(dbHeader, batchHeader);
      dbHeight := Written(dbHeight, batchHeight);
      dbRaw := Written(dbRaw, batchRaw);
      dbLatest := Written(dbLatest, batchLatest);
      dbTransaction := Written(dbTransaction, batchTransaction);
      ClearBatchAll();
    }

    method ClearBatchAll()
      modifies this`batchHeader, this`batchHeight, this`batchRaw, this`batchLatest, this`batchTransaction
      ensures Clean()
    {
      batchHeader, batchHeight, batchRaw, batchLatest, batchTransaction := [], [], [], [], [];
    }

    /** The five put functions, in order until one fails. */
    method PutAll(b: Block) returns (ok: bool)
      requires Clean()
      modifies this`batchHeader, this`batchHeight, this`batchRaw, this`batchLatest, this`batchTransaction
      ensures ok <==> Arrays(b)
      ensures ok ==> && batchHeader == HeaderWrites(b, HEADER_FIELDS, |HEADER_FIELDS|) && batchHeight == HeightWrites(b)
                     && batchRaw == RawWrites(H, b) && batchLatest == LatestWrites(dbHeader, dbLatest, b)
                     && batchTransaction == BodyWrites(b)
    {
      ok := PutBlockHeader(b);
      if ok {
        PutBlockHeight(b);
        PutLatestBlockHeader(b);
        ok := PutTransaction(b);
        if ok {
          PutBlockRaw(b);
        }
      }
    }

    /** saveBlock: all or nothing, and no pending write is left behind. */
    method SaveBlock(b: Block) returns (ok: bool)
      requires Clean()
      modifies this
      ensures Clean() && (ok <==> Arrays(b))
      ensures Contents() == Saved(H, old(Contents()), b)
    {
      ok := PutAll(b);
      if ok {
        CommitBatchAll();
      } else {
        ClearBatchAll();
      }
    }

    /** getProof; None stands for the exception raised when no position is stored for the transaction.
        For a transaction on record the proof is accepted against the Merkle root of its block. */
    method GetProof(txid: Id, ghost b: Block, ghost i: nat) returns (r: Option<Proof>)
      requires Hashing()
      ensures r.None? <==> TxPosition(txid) !in dbTransaction || !dbTransaction[TxPosition(txid)].Number?
      ensures Provable(Contents(), b, i, h) && b.txs.value[i].id == txid ==>
                && r.Some? && r.value.id == b.id && |r.value.siblings| == h + 1
                && Tree.Accepts(H, r.value.siblings, b.tree[i], Tree.Root(H, Tree.Padded(b.tree, Pow2(h)), h))
    {
      var kp, kb := TxPosition(txid), TxBlock(txid);
      if kp !in dbTransaction || !dbTransaction[kp].Number? {
        return None;
      }
      var position := dbTransaction[kp].n;
      var id := if kb in dbTransaction && dbTransaction[kb].Text? then dbTransaction[kb].text else "";
      if id == "" {
        return Some(Proof("", []));
      }
      var km := BlockTree(id);
      if km !in dbTransaction || !dbTransaction[km].Digests? {
        return Some(Proof(id, []));
      }
      var siblings := Tree.BuildProof(H, lookup, h, dbTransaction[km].digests, position);
      r := Some(Proof(id, siblings));
    }
  }

  datatype Proof = Proof(id: Id, siblings: seq<Tree.Sibling>)

  // ---- records of transactions ----

  /** Transaction i of block b can be found: its position, its block, and the block's leaves. */
  ghost predicate Recorded(d: Dbs, b: Block, i: nat) {
    && b.txs.Some? && i < |b.txs.value|
    && var id := b.txs.value[i].id;
      && TxPosition(id) in d.transaction && d.transaction[TxPosition(id)] == Number(i)
      && TxBlock(id) in d.transaction && d.transaction[TxBlock(id)] == Text(b.id)
      && BlockTree(b.id) in d.transaction && d.transaction[BlockTree(b.id)] == Digests(b.tree)
  }

  /** On record, in a block with an id, among the first 2^h transactions, and every stored leaf a digest. */
  ghost predicate Provable(d: Dbs, b: Block, i: nat, h: nat) {
    Recorded(d, b, i) && b.id != "" && Tree.AllDigests(b.tree) && i < |b.tree| && i < Pow2(h)
  }

  lemma {:induction false} TxWritesAre(b: Block, n: nat)
    requires b.txs.Some? && n <= |b.txs.value|
    ensures |TxWrites(b, n)| == 3 * n
    ensures forall i | 0 <= i < n ::
              && TxWrites(b, n)[3 * i] == (TxContent(b.txs.value[i].id), Raw(b.txs.value[i].content))
              && TxWrites(b, n)[3 * i + 1] == (TxPosition(b.txs.value[i].id), Number(i))
              && TxWrites(b, n)[3 * i + 2] == (TxBlock(b.txs.value[i].id), Text(b.id))
  {
    if n > 0 {
      TxWritesAre(b, n - 1);
    }
  }

  /** Which write of the body list index j is. */
  lemma BodyWriteAt(b: Block, j: nat)
    requires b.txs.Some? && j < |BodyWrites(b)|
    ensures |BodyWrites(b)| == 3 * |b.txs.value| + 2
    ensures var k := BodyWrites(b)[j].0;
            if j < 3 * |b.txs.value| then
              var id := b.txs.value[j / 3].id;
              k == (if j % 3 == 0 then TxContent(id) else if j % 3 == 1 then TxPosition(id) else TxBlock(id))
            else k == (if j == 3 * |b.txs.value| then BlockTree(b.id) else BlockCount(b.id))
  {
    TxWritesAre(b, |b.txs.value|);
    if j < 3 * |b.txs.value| {
      assert j == 3 * (j / 3) + j % 3;
    }
  }

  /** A saved block with distinct transaction ids has every transaction on record. */
  lemma SavedRecords(H: Tree.Hash, d: Dbs, b: Block, i: nat)
    requires Arrays(b) && i < |b.txs.value|
    requires forall j | i < j < |b.txs.value| :: b.txs.value[j].id != b.txs.value[i].id
    ensures Recorded(Saved(H, d, b), b, i)
  {
    var n, id := |b.txs.value|, b.txs.value[i].id;
    var w := BodyWrites(b);
    TxWritesAre(b, n);
    assert w[3 * i + 1] == (TxPosition(id), Number(i)) && w[3 * i + 2] == (TxBlock(id), Text(b.id));
    assert w[3 * n] == (BlockTree(b.id), Digests(b.tree));
    forall j | 3 * i + 1 < j < |w| ensures w[j].0 != TxPosition(id) { BodyWriteAt(b, j); }
    forall j | 3 * i + 2 < j < |w| ensures w[j].0 != TxBlock(id) { BodyWriteAt(b, j); }
    forall j | 3 * n < j < |w| ensures w[j].0 != BlockTree(b.id) { BodyWriteAt(b, j); }
    WrittenFinds(d.transaction, w, TxPosition(id), 3 * i + 1);
    WrittenFinds(d.transaction, w, TxBlock(id), 3 * i + 2);
    WrittenFinds(d.transaction, w, BlockTree(b.id), 3 * n);
  }

  /** Saving another block, with other transactions, leaves the record as it is. */
  lemma OtherSavesKeep(H: Tree.Hash, d: Dbs, b: Block, i: nat, c: Block)
    requires Recorded(d, b, i) && c.id != b.id
    requires c.txs.Some? ==> forall j | 0 <= j < |c.txs.value| :: c.txs.value[j].id != b.txs.value[i].id
    ensures Recorded(Saved(H, d, c), b, i)
  {
    if Arrays(c) {
      var w, id := BodyWrites(c), b.txs.value[i].id;
      forall j | 0 <= j < |w| ensures w[j].0 != TxPosition(id) && w[j].0 != TxBlock(id) && w[j].0 != BlockTree(b.id) {
        BodyWriteAt(c, j);
      }
      WrittenKeeps(d.transaction, w, TxPosition(id));
      WrittenKeeps(d.transaction, w, TxBlock(id));
      WrittenKeeps(d.transaction, w, BlockTree(b.id));
    }
  }

  /** The leaves a block puts in its body: the first nodes of its tree, one per transaction. */
  function StoredTree(H: Tree.Hash, digests: seq<Bytes>, h: nat): seq<Bytes>
    requires |digests| < 2 * Pow2(h)
  {
    StoredNodes(H, digests, Pow2(h), |digests|)
  }

  function StoredNodes(H: Tree.Hash, digests: seq<Bytes>, n: nat, k: nat): (r: seq<Bytes>)
    requires k < 2 * n
    ensures |r| == k
  {
    if k == 0 then [] else StoredNodes(H, digests, n, k - 1) + [Tree.Value(H, Tree.Padded(digests, n), k - 1)]
  }

  lemma {:induction false} StoredNodeAt(H: Tree.Hash, digests: seq<Bytes>, n: nat, k: nat, p: nat)
    requires p < k < 2 * n
    ensures StoredNodes(H, digests, n, k)[p] == Tree.Value(H, Tree.Padded(digests, n), p)
  {
    if p < k - 1 {
      StoredNodeAt(H, digests, n, k - 1, p);
    }
  }

  /** The tree regenerated from what a block stores is the block's own, even when it has more transactions than
      leaves; with no more than leaves, what it stores are the digests. */
  lemma StoredTreeRegenerates(H: Tree.Hash, digests: seq<Bytes>, h: nat)
    requires |digests| < 2 * Pow2(h)
    ensures Tree.Padded(StoredTree(H, digests, h), Pow2(h)) == Tree.Padded(digests, Pow2(h))
    ensures |digests| <= Pow2(h) ==> StoredTree(H, digests, h) == digests
  {
    var n := Pow2(h);
    forall p | 0 <= p < n && p < |digests| ensures StoredTree(H, digests, h)[p] == digests[p] {
      StoredNodeAt(H, digests, n, |digests|, p);
    }
  }

  function DigestsOf(digest: Tx -> Bytes, txs: seq<Tx>): (r: seq<Bytes>)
    ensures |r| == |txs| && forall i | 0 <= i < |txs| :: r[i] == digest(txs[i])
  {
    if txs == [] then [] else DigestsOf(digest, txs[..|txs| - 1]) + [digest(txs[|txs| - 1])]
  }

  /** The block's stored leaves come from the tree over its transactions' digests. */
  ghost predicate Honest(H: Tree.Hash, digest: Tx -> Bytes, b: Block, h: nat) {
    && b.txs.Some? && |b.txs.value| < 2 * Pow2(h)
    && b.tree == StoredTree(H, DigestsOf(digest, b.txs.value), h)
  }

  /** For such a block, what getProof proves of transaction i is its digest, against the root of the block's tree. */
  lemma HonestLeaf(H: Tree.Hash, digest: Tx -> Bytes, b: Block, h: nat, i: nat)
    requires Honest(H, digest, b, h) && i < |b.txs.value| <= Pow2(h)
    ensures i < |b.tree| && b.tree[i] == digest(b.txs.value[i])
    ensures var leaves := Tree.Padded(DigestsOf(digest, b.txs.value), Pow2(h));
            Tree.Root(H, Tree.Padded(b.tree, Pow2(h)), h) == Tree.Value(H, leaves, 2 * Pow2(h) - 2)
  {
    StoredTreeRegenerates(H, DigestsOf(digest, b.txs.value), h);
    Tree.LastIsRoot(H, Tree.Padded(b.tree, Pow2(h)), h);
  }

  // ---- the latest block ----

  /** Only field HGT writes the height key. */
  ghost predicate OneHeight(fields: seq<(string, string)>) {
    && HGT < |fields| && fields[HGT] == ("hgt", "_hgt")
    && forall i | 0 <= i < |fields| && i != HGT :: NotHeight(fields[i].1)
  }

  predicate NotHeight(suffix: string) { suffix != "_hgt" && suffix + "_c" != "_hgt" && suffix + "_n" != "_hgt" }

  lemma HeaderHasOneHeight()
    ensures OneHeight(HEADER_FIELDS)
  {
    forall i | 0 <= i < |HEADER_FIELDS| && i != HGT ensures NotHeight(HEADER_FIELDS[i].1) {
      var s := HEADER_FIELDS[i].1;
      assert |"_hgt"| == 4 && "_hgt"[1] == 'h';
      assert |s| == 4 ==> s[1] != 'h';
      assert |s| >= 4 && |s + "_c"| == |s| + 2 && |s + "_n"| == |s| + 2;
    }
  }

  lemma {:induction false} HeightWritten(db: Db, b: Block, fields: seq<(string, string)>, n: nat)
    requires b.signatures.Some? && b.txids.Some? && HGT < n <= |fields| && OneHeight(fields)
    ensures HeightKnown(Written(db, HeaderWrites(b, fields, n)), b)
    decreases n
  {
    var k := HeaderKey(b.id, "_hgt");
    var before := HeaderWrites(b, fields, n - 1);
    var writes := FieldWrites(b, fields[n - 1].0, fields[n - 1].1);
    WrittenSplit(db, before, writes);
    if n - 1 == HGT {
      assert writes == [(k, Number(b.height))];
      WrittenFinds(Written(db, before), writes, k, 0);
    } else {
      HeightWritten(db, b, fields, n - 1);
      assert NotHeight(fields[n - 1].1);
      WrittenKeeps(Written(db, before), writes, k);
    }
  }

  predicate Mine(k: Key, b: Block) { k.HeaderKey? && k.id == b.id }

  lemma {:induction false} HeaderWritesMine(b: Block, fields: seq<(string, string)>, n: nat)
    requires b.signatures.Some? && b.txids.Some? && n <= |fields|
    ensures forall i | 0 <= i < |HeaderWrites(b, fields, n)| :: Mine(HeaderWrites(b, fields, n)[i].0, b)
  {
    if n > 0 {
      HeaderWritesMine(b, fields, n - 1);
    }
  }

  /** The databases after a sequence of saveBlock calls on an empty storage. */
  function SaveAll(H: Tree.Hash, blocks: seq<Block>): Dbs {
    if blocks == [] then Dbs(map[], map[], map[], map[], map[])
    else Saved(H, SaveAll(H, blocks[..|blocks| - 1]), blocks[|blocks| - 1])
  }

  /** Saved blocks have an id and a positive height, and the id determines the height. */
  ghost predicate Proper(blocks: seq<Block>) {
    && (forall i | 0 <= i < |blocks| && Arrays(blocks[i]) :: blocks[i].id != "" && blocks[i].height > 0)
    && (forall i, j | 0 <= i < j < |blocks| && Arrays(blocks[i]) && Arrays(blocks[j]) && blocks[i].id == blocks[j].id ::
          blocks[i].height == blocks[j].height)
  }

  /** Block k is the first saved one of the greatest height ever saved. */
  ghost predicate FirstHighest(blocks: seq<Block>, k: nat) {
    && k < |blocks| && Arrays(blocks[k])
    && (forall j | 0 <= j < |blocks| && Arrays(blocks[j]) :: blocks[j].height <= blocks[k].height)
    && (forall j | 0 <= j < k && Arrays(blocks[j]) :: blocks[j].height < blocks[k].height)
  }

  ghost predicate HeightKnown(header: Db, b: Block) {
    HeaderKey(b.id, "_hgt") in header && header[HeaderKey(b.id, "_hgt")] == Number(b.height)
  }

  ghost predicate PointsTo(latest: Db, b: Block) {
    && LatestId in latest && latest[LatestId] == Text(b.id)
    && LatestHeight in latest && latest[LatestHeight] == Number(b.height)
  }

  /** The index of the first saved block of the greatest height, by going through the saves. */
  function Best(blocks: seq<Block>): (r: Option<nat>)
    ensures r.Some? ==> r.value < |blocks| && Arrays(blocks[r.value])
  {
    if blocks == [] then None
    else
      var n := |blocks| - 1;
      var r := Best(blocks[..n]);
      if Arrays(blocks[n]) && (r.None? || blocks[r.value].height < blocks[n].height) then Some(n) else r
  }

  lemma {:induction false} BestIsFirstHighest(blocks: seq<Block>)
    ensures Best(blocks).Some? ==> FirstHighest(blocks, Best(blocks).value)
    ensures Best(blocks).None? ==> forall i | 0 <= i < |blocks| :: !Arrays(blocks[i])
  {
    if blocks != [] {
      var n := |blocks| - 1;
      var front := blocks[..n];
      BestIsFirstHighest(front);
      assert forall i | 0 <= i < n :: front[i] == blocks[i];
    }
  }

  ghost predicate LatestOk(latest: Db, blocks: seq<Block>) {
    if Best(blocks).Some? then PointsTo(latest, blocks[Best(blocks).value]) else LatestId !in latest
  }

  /** The height of the last block saved under an id. */
  function LastHeight(blocks: seq<Block>, id: Id): Option<nat> {
    if blocks == [] then None
    else
      var b := blocks[|blocks| - 1];
      if Arrays(b) && b.id == id then Some(b.height) else LastHeight(blocks[..|blocks| - 1], id)
  }

  /** The height on record for an id is that of the last block saved under it. */
  lemma {:induction false} RecordIsLastHeight(H: Tree.Hash, blocks: seq<Block>, id: Id)
    ensures var header, k := SaveAll(H, blocks).header, HeaderKey(id, "_hgt");
            match LastHeight(blocks, id)
            case None => k !in header
            case Some(n) => k in header && header[k] == Number(n)
  {
    if blocks != [] {
      var front, b := blocks[..|blocks| - 1], blocks[|blocks| - 1];
      var header := SaveAll(H, front).header;
      RecordIsLastHeight(H, front, id);
      if Arrays(b) {
        if b.id == id {
          HeaderHasOneHeight();
          HeightWritten(header, b, HEADER_FIELDS, |HEADER_FIELDS|);
        } else {
          HeaderWritesMine(b, HEADER_FIELDS, |HEADER_FIELDS|);
          WrittenKeeps(header, HeaderWrites(b, HEADER_FIELDS, |HEADER_FIELDS|), HeaderKey(id, "_hgt"));
        }
      }
    }
  }

  /** The height a latest-block entry gives. */
  function PointedHeight(latest: Db): nat {
    if LatestHeight in latest && latest[LatestHeight].Number? then latest[LatestHeight].n else 0
  }

  /** What must hold of the databases for saving b to leave a right entry right: a block above the height it
      gives must be above the height on record too, and one that is not must not be taken for one, unless it
      is the block it names. */
  predicate SaveIsSafe(header: Db, latest: Db, b: Block) {
    var known := LatestKnown(header, latest);
    if LatestId !in latest || PointedHeight(latest) < b.height then known < b.height
    else known < b.height ==> latest[LatestId] == Text(b.id) && PointedHeight(latest) == b.height
  }

  /** A save keeps the latest-block entry right exactly if it is safe. */
  lemma SaveKeepsLatestIff(H: Tree.Hash, d: Dbs, blocks: seq<Block>, b: Block)
    requires LatestOk(d.latest, blocks)
    ensures LatestOk(Saved(H, d, b).latest, blocks + [b]) <==> (Arrays(b) ==> SaveIsSafe(d.header, d.latest, b))
  {
    var all, r := blocks + [b], Best(blocks);
    assert all[..|all| - 1] == blocks && all[|blocks|] == b && (r.Some? ==> all[r.value] == blocks[r.value]);
    if Arrays(b) && LatestKnown(d.header, d.latest) < b.height {
      LatestMoves(d, b, Saved(H, d, b).latest);
    }
  }

  lemma LatestMoves(d: Dbs, b: Block, after: Db)
    requires LatestKnown(d.header, d.latest) < b.height && after == Written(d.latest, LatestWrites(d.header, d.latest, b))
    ensures PointsTo(after, b)
  {
    var w := LatestWrites(d.header, d.latest, b);
    WrittenFinds(d.latest, w, LatestId, 0);
    WrittenFinds(d.latest, w, LatestHeight, 1);
  }

  /** The same in terms of the blocks saved before: the height on record for the block pointed to is that of the
      last save under its id. */
  predicate SafeAfter(before: seq<Block>, b: Block) {
    var r := Best(before);
    if r.None? then 0 < b.height
    else
      var top := before[r.value];
      var h := LastHeight(before, top.id);
      var known := if top.id == "" || h.None? then 0 else h.value;
      if top.height < b.height then known < b.height
      else known < b.height ==> b.id == top.id && b.height == top.height
  }

  lemma SafeAfterIsSafe(H: Tree.Hash, before: seq<Block>, b: Block)
    requires LatestOk(SaveAll(H, before).latest, before)
    ensures SafeAfter(before, b) <==> SaveIsSafe(SaveAll(H, before).header, SaveAll(H, before).latest, b)
  {
    if Best(before).Some? {
      RecordIsLastHeight(H, before, before[Best(before).value].id);
    }
  }

  ghost predicate RightAt(H: Tree.Hash, blocks: seq<Block>, n: nat)
    requires n <= |blocks|
  {
    LatestOk(SaveAll(H, blocks[..n]).latest, blocks[..n])
  }

  ghost predicate SafeAt(blocks: seq<Block>, n: nat)
    requires n < |blocks|
  {
    Arrays(blocks[n]) ==> SafeAfter(blocks[..n], blocks[n])
  }

  lemma NextRightIff(H: Tree.Hash, blocks: seq<Block>, n: nat)
    requires n < |blocks| && RightAt(H, blocks, n)
    ensures RightAt(H, blocks, n + 1) <==> SafeAt(blocks, n)
  {
    var before, b := blocks[..n], blocks[n];
    assert blocks[..n + 1] == before + [b] && (before + [b])[..n] == before;
    SaveKeepsLatestIff(H, SaveAll(H, before), before, b);
    SafeAfterIsSafe(H, before, b);
  }

  lemma {:induction false} RightUpTo(H: Tree.Hash, blocks: seq<Block>, n: nat)
    requires n <= |blocks| && forall i | 0 <= i < n :: SafeAt(blocks, i)
    ensures RightAt(H, blocks, n)
  {
    if n == 0 {
      assert blocks[..0] == [];
    } else {
      RightUpTo(H, blocks, n - 1);
      NextRightIff(H, blocks, n - 1);
    }
  }

  /** Over any sequence of saves, failed ones included, the latest-block entry is right after every save if and
      only if every save is safe after those before it. */
  lemma AlwaysRightIff(H: Tree.Hash, blocks: seq<Block>)
    ensures (forall n | 0 <= n <= |blocks| :: RightAt(H, blocks, n)) <==> (forall n | 0 <= n < |blocks| :: SafeAt(blocks, n))
  {
    if forall n | 0 <= n < |blocks| :: SafeAt(blocks, n) {
      forall n | 0 <= n <= |blocks| ensures RightAt(H, blocks, n) {
        RightUpTo(H, blocks, n);
      }
    }
    if forall n | 0 <= n <= |blocks| :: RightAt(H, blocks, n) {
      forall n | 0 <= n < |blocks| ensures SafeAt(blocks, n) {
        NextRightIff(H, blocks, n);
      }
    }
  }

  /** A right latest-block entry names the first-saved block of the greatest height ever saved, with that
      block's height; it is missing only if nothing was saved. */
  lemma LatestIsFirstHighest(H: Tree.Hash, blocks: seq<Block>)
    requires forall n | 0 <= n < |blocks| :: SafeAt(blocks, n)
    ensures var latest := SaveAll(H, blocks).latest;
            match Best(blocks)
            case Some(k) => FirstHighest(blocks, k) && PointsTo(latest, blocks[k])
            case None => LatestId !in latest && forall i | 0 <= i < |blocks| :: !Arrays(blocks[i])
  {
    RightUpTo(H, blocks, |blocks|);
    assert blocks[..|blocks|] == blocks;
    BestIsFirstHighest(blocks);
  }

  lemma {:induction false} LastHeightIsSome(blocks: seq<Block>, k: nat)
    requires Proper(blocks) && k < |blocks| && Arrays(blocks[k])
    ensures LastHeight(blocks, blocks[k].id) == Some(blocks[k].height)
  {
    var n := |blocks| - 1;
    if k < n && !(Arrays(blocks[n]) && blocks[n].id == blocks[k].id) {
      LastHeightIsSome(blocks[..n], k);
    }
  }

  /** If ids determine positive heights, every save is safe. */
  lemma ProperIsSafe(blocks: seq<Block>, n: nat)
    requires Proper(blocks) && n < |blocks|
    ensures SafeAt(blocks, n)
  {
    var r := Best(blocks[..n]);
    if r.Some? {
      LastHeightIsSome(blocks[..n], r.value);
    }
  }

  /** Without the condition that ids determine heights it fails: an id saved at height 5, say, and again at
      height 3 makes a block of height 4 the latest. */
  lemma SameIdTwoHeights(H: Tree.Hash, a: Block, a': Block, b: Block)
    requires Arrays(a) && Arrays(a') && Arrays(b) && a.id == a'.id != "" && a'.height < b.height < a.height
    ensures PointsTo(SaveAll(H, [a, a', b]).latest, b)
  {
    var d0 := SaveAll(H, []);
    var d1 := Saved(H, d0, a);
    var d2 := Saved(H, d1, a');
    assert [a, a', b][..2] == [a, a'] && [a, a'][..1] == [a] && [a][..0] == [];
    assert SaveAll(H, [a]) == d1 && SaveAll(H, [a, a']) == d2;
    LatestMoves(d0, a, d1.latest);
    HeaderHasOneHeight();
    HeightWritten(d0.header, a, HEADER_FIELDS, |HEADER_FIELDS|);
    HeightWritten(d1.header, a', HEADER_FIELDS, |HEADER_FIELDS|);
    assert LatestKnown(d1.header, d1.latest) == a.height;
    assert LatestKnown(d2.header, d2.latest) == a'.height;
    LatestMoves(d2, b, Saved(H, d2, b).latest);
  }

  /** Block c neither is block b nor holds its transaction i. */
  ghost predicate Apart(c: Block, b: Block, i: nat)
    requires b.txs.Some? && i < |b.txs.value|
  {
    c.id != b.id && (c.txs.Some? ==> forall j | 0 <= j < |c.txs.value| :: c.txs.value[j].id != b.txs.value[i].id)
  }

  /** A transaction of a saved block stays on record through every later save of other blocks. */
  lemma {:induction false} StaysOnRecord(H: Tree.Hash, blocks: seq<Block>, k: nat, i: nat)
    requires k < |blocks| && Arrays(blocks[k]) && i < |blocks[k].txs.value|
    requires forall j | i < j < |blocks[k].txs.value| :: blocks[k].txs.value[j].id != blocks[k].txs.value[i].id
    requires forall c | k < c < |blocks| :: Apart(blocks[c], blocks[k], i)
    ensures Recorded(SaveAll(H, blocks), blocks[k], i)
  {
    var n := |blocks| - 1;
    var front := blocks[..n];
    if k == n {
      SavedRecords(H, SaveAll(H, front), blocks[k], i);
    } else {
      StaysOnRecord(H, front, k, i);
      assert Apart(blocks[n], blocks[k], i);
      OtherSavesKeep(H, SaveAll(H, front), blocks[k], i, blocks[n]);
    }
  }

  /** Every transaction of a saved block, of at most 2^h transactions with different ids and their digests as
      leaves, is one that getProof proves, through all later saves of other blocks. */
  lemma SavedIsProvable(H: Tree.Hash, blocks: seq<Block>, k: nat, i: nat, h: nat)
    requires k < |blocks| && Arrays(blocks[k]) && blocks[k].id != "" && i < |blocks[k].txs.value|
    requires |blocks[k].tree| == |blocks[k].txs.value| <= Pow2(h) && Tree.AllDigests(blocks[k].tree)
    requires forall a, b | 0 <= a < b < |blocks[k].txs.value| :: blocks[k].txs.value[a].id != blocks[k].txs.value[b].id
    requires forall c | k < c < |blocks| :: Apart(blocks[c], blocks[k], i)
    ensures Provable(SaveAll(H, blocks), blocks[k], i, h)
  {
    StaysOnRecord(H, blocks, k, i);
  }

  // ---- reading a block back ----

  /** The raw bytes of block b and their hash are stored under its id. */
  ghost predicate RawStored(H: Tree.Hash, raw: Db, b: Block) {
    && RawKey(b.id) in raw && raw[RawKey(b.id)] == Raw(b.raw)
    && RawHashKey(b.id) in raw && raw[RawHashKey(b.id)] == Raw(H(b.raw))
  }

  ghost predicate IdStored(height: Db, b: Block) {
    HeightKey(b.height) in height && height[HeightKey(b.height)] == Text(b.id)
  }

  lemma SaveStores(H: Tree.Hash, d: Dbs, b: Block)
    requires Arrays(b)
    ensures RawStored(H, Saved(H, d, b).raw, b) && IdStored(Saved(H, d, b).height, b)
  {
    WrittenFinds(d.raw, RawWrites(H, b), RawKey(b.id), 0);
    WrittenFinds(d.raw, RawWrites(H, b), RawHashKey(b.id), 1);
    WrittenFinds(d.height, HeightWrites(b), HeightKey(b.height), 0);
  }

  lemma OtherSaveKeepsStored(H: Tree.Hash, d: Dbs, b: Block, c: Block)
    ensures RawStored(H, d.raw, b) && (Arrays(c) ==> c.id != b.id) ==> RawStored(H, Saved(H, d, c).raw, b)
    ensures IdStored(d.height, b) && (Arrays(c) ==> c.height != b.height) ==> IdStored(Saved(H, d, c).height, b)
  {
    if Arrays(c) {
      if c.id != b.id {
        WrittenKeeps(d.raw, RawWrites(H, c), RawKey(b.id));
        WrittenKeeps(d.raw, RawWrites(H, c), RawHashKey(b.id));
      }
      if c.height != b.height {
        WrittenKeeps(d.height, HeightWrites(c), HeightKey(b.height));
      }
    }
  }

  /** The last block saved under an id is the one whose bytes are read back for it, and the last one saved at a
      height is the one found there. */
  lemma {:induction false} LastSaveIsRead(H: Tree.Hash, blocks: seq<Block>, k: nat)
    requires k < |blocks| && Arrays(blocks[k])
    ensures (forall c | k < c < |blocks| && Arrays(blocks[c]) :: blocks[c].id != blocks[k].id) ==>
              RawStored(H, SaveAll(H, blocks).raw, blocks[k])
    ensures (forall c | k < c < |blocks| && Arrays(blocks[c]) :: blocks[c].height != blocks[k].height) ==>
              IdStored(SaveAll(H, blocks).height, blocks[k])
  {
    var n := |blocks| - 1;
    var front := blocks[..n];
    if k == n {
      SaveStores(H, SaveAll(H, front), blocks[k]);
    } else {
      LastSaveIsRead(H, front, k);
      assert forall c | k < c < n :: front[c] == blocks[c];
      OtherSaveKeepsStored(H, SaveAll(H, front), blocks[k], blocks[n]);
    }
  }
}
