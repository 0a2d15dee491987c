/**
  The ledger kept in layers: records of unconfirmed blocks in memory, over key-value pairs on disk.
  A layer list names blocks newest first.  The mutex around the memory ledger is not modelled.
 */
module LayeredLedger {
  import opened Wrappers
  import opened WriteBatches

  datatype Record = Record(key: string, value: string, block: string)

  type Disk = map<string, string>

  // ---- memory ledger ----

  /** The value of the first record for the key in the block. */
  function FindVal(mem: seq<Record>, key: string, block: string): Option<string> {
    if mem == [] then None
    else if mem[0].key == key && mem[0].block == block then Some(mem[0].value)
    else FindVal(mem[1..], key, block)
  }

  /** The pairs of a block, in order. */
  function Pairs(mem: seq<Record>, block: string): seq<(string, string)> {
    if mem == [] then []
    else (if mem[0].block == block then [(mem[0].key, mem[0].value)] else []) + Pairs(mem[1..], block)
  }

  function Dropped(mem: seq<Record>, block: string): seq<Record> {
    if mem == [] then []
    else (if mem[0].block == block then [] else [mem[0]]) + Dropped(mem[1..], block)
  }

  function DiskRead(disk: Disk, key: string): string { if key in disk then disk[key] else "" }

  /** The first record found along the layers. */
  function Layered(mem: seq<Record>, layers: seq<string>, key: string): Option<string> {
    if layers == [] then None
    else
      var r := FindVal(mem, key, layers[0]);
      if r.Some? then r else Layered(mem, layers[1..], key)
  }

  /** readLedgerByKey: an empty value in memory is looked up on disk, like a missing one. */
  function Read(mem: seq<Record>, disk: Disk, layers: seq<string>, key: string): string {
    var r := Layered(mem, layers, key);
    if r.Some? && r.value != "" then r.value else DiskRead(disk, key)
  }

  class LayeredStorage {
    var mem: seq<Record>
    var disk: Disk
    var batch: seq<(string, string)>
    var blockLayer: seq<string>

    method Push(key: string, value: string, block: string)
      modifies this`mem
      ensures mem == old(mem) + [Record(key, value, block)]
    {
      mem := mem + [Record(key, value, block)];
    }

    /** append: every record of the other ledger, its key wrapped in the prefix. */
    method Append(other: seq<Record>, prefix: string)
      modifies this`mem
      ensures |mem| == |old(mem)| + |other| && old(mem) <= mem
      ensures forall i | 0 <= i < |other| :: mem[|old(mem)| + i] == Record(prefix + other[i].key, other[i].value, other[i].block)
    {
      var wrapped := other;
      if prefix != "" {
        for i := 0 to |other|
          invariant |wrapped| == |other|
          invariant forall j | 0 <= j < i :: wrapped[j] == Record(prefix + other[j].key, other[j].value, other[j].block)
          invariant forall j | i <= j < |other| :: wrapped[j] == other[j]
        {
          wrapped := wrapped[i := wrapped[i].(key := prefix + wrapped[i].key)];
        }
      }
      mem := mem + wrapped;
    }

    method GetVal(key: string, block: string) returns (r: Option<string>)
      ensures r == FindVal(mem, key, block)
    {
      r := None;
      for i := 0 to |mem|
        invariant FindVal(mem, key, block) == FindVal(mem[i..], key, block)
      {
        if mem[i].key == key && mem[i].block == block {
          return Some(mem[i].value);
        }
        assert mem[i..][1..] == mem[i + 1..];
      }
    }

    method GetKV(block: string) returns (kv: seq<(string, string)>)
      ensures kv == Pairs(mem, block)
    {
      kv := [];
      for i := 0 to |mem|
        invariant Pairs(mem, block) == kv + Pairs(mem[i..], block)
      {
        assert mem[i..][1..] == mem[i + 1..];
        if mem[i].block == block {
          kv := kv + [(mem[i].key, mem[i].value)];
        }
      }
    }

    method DropKV(block: string)
      modifies this`mem
      ensures mem == Dropped(old(mem), block)
    {
      var kept: seq<Record> := [];
      for i := 0 to |mem|
        invariant mem == old(mem)
        invariant Dropped(mem, block) == kept + Dropped(mem[i..], block)
      {
        assert mem[i..][1..] == mem[i + 1..];
        if mem[i].block != block {
          kept := kept + [mem[i]];
        }
      }
      mem := kept;
    }

    /** saveLedger: to the disk's batch without a block id, to memory with one. */
    method SaveLedger(key: string, value: string, block: string)
      modifies this`mem, this`batch
      ensures block == "" ==> batch == old(batch) + [(key, value)] && mem == old(mem)
      ensures block != "" ==> mem == old(mem) + [Record(key, value, block)] && batch == old(batch)
    {
      if block == "" {
        batch := batch + [(key, value)];
      } else {
        Push(key, value, block);
      }
    }

    method ReadLedgerByKey(key: string, layers: seq<string>) returns (value: string)
      ensures value == Read(mem, disk, if layers == [] then blockLayer else layers, key)
    {
      value := "";
      var list := if layers == [] then blockLayer else layers;
      var i := 0;
      while i < |list|
        invariant 0 <= i <= |list| && value == ""
        invariant Layered(mem, list, key) == Layered(mem, list[i..], key)
      {
        var r := GetVal(key, list[i]);
        if r.Some? {
          value := r.value;
          break;
        }
        assert list[i..][1..] == list[i + 1..];
        i := i + 1;
      }
      if value == "" {
        value := DiskRead(disk, key);
      }
    }

    method FlushLedger()
      modifies this`disk, this`batch
      ensures disk == Written(old(disk), old(batch)) && batch == []
    {
      disk := Written(disk, batch);
      batch := [];
    }

    /** moveToDiskLedger */
    method MoveToDiskLedger(block: string)
      modifies this`mem, this`disk, this`batch
      ensures batch == [] && mem == Dropped(old(mem), block)
      ensures disk == Written(old(disk), old(batch) + Pairs(old(mem), block))
    {
      var kv := GetKV(block);
      for i := 0 to |kv|
        invariant batch == old(batch) + kv[..i] && mem == old(mem) && disk == old(disk)
      {
        SaveLedger(kv[i].0, kv[i].1, "");
        assert kv[..i + 1] == kv[..i] + [kv[i]];
      }
      assert kv[..|kv|] == kv;
      FlushLedger();
      DropKV(block);
    }
  }

  // ---- moving a block to disk ----

  /** The value of the last record for the key in the block. */
  function LastVal(mem: seq<Record>, key: string, block: string): Option<string> {
    if mem == [] then None
    else
      var r := LastVal(mem[1..], key, block);
      if r.None? && mem[0].key == key && mem[0].block == block then Some(mem[0].value) else r
  }

  lemma {:induction false} DropKeepsOthers(mem: seq<Record>, block: string, key: string, other: string)
    ensures FindVal(Dropped(mem, block), key, other) == if other == block then None else FindVal(mem, key, other)
  {
    if mem != [] {
      DropKeepsOthers(mem[1..], block, key, other);
      if mem[0].block != block {
        assert Dropped(mem, block)[1..] == Dropped(mem[1..], block);
      } else {
        assert Dropped(mem, block) == Dropped(mem[1..], block);
      }
    }
  }

  /** The last record for a key is what the block's pairs leave on disk. */
  lemma {:induction false} PairsWriteLast(mem: seq<Record>, disk: Disk, block: string, key: string)
    ensures var r := LastVal(mem, key, block);
            DiskRead(Written(disk, Pairs(mem, block)), key) == if r.Some? then r.value else DiskRead(disk, key)
  {
    if mem != [] {
      var first := if mem[0].block == block then [(mem[0].key, mem[0].value)] else [];
      WrittenSplit(disk, first, Pairs(mem[1..], block));
      PairsWriteLast(mem[1..], Written(disk, first), block, key);
      if mem[0].block == block && mem[0].key == key {
        WrittenFinds(disk, first, key, 0);
      } else {
        WrittenKeeps(disk, first, key);
      }
    }
  }

  lemma {:induction false} LastIfFirst(mem: seq<Record>, key: string, block: string)
    ensures LastVal(mem, key, block).Some? <==> FindVal(mem, key, block).Some?
  {
    if mem != [] {
      LastIfFirst(mem[1..], key, block);
    }
  }

  lemma {:induction false} LayeredAfterDrop(mem: seq<Record>, layers: seq<string>, block: string, key: string)
    requires block !in layers
    ensures Layered(Dropped(mem, block), layers, key) == Layered(mem, layers, key)
    ensures Layered(Dropped(mem, block), layers + [block], key) == Layered(mem, layers, key)
    ensures Layered(mem, layers + [block], key)
         == if Layered(mem, layers, key).Some? then Layered(mem, layers, key) else FindVal(mem, key, block)
  {
    var longer := layers + [block];
    if layers == [] {
      DropKeepsOthers(mem, block, key, block);
      assert longer[1..] == [];
    } else {
      DropKeepsOthers(mem, block, key, layers[0]);
      LayeredAfterDrop(mem, layers[1..], block, key);
      assert longer[1..] == layers[1..] + [block];
    }
  }

  /** When moving the oldest block of a layer list keeps what the list shows for the key: a newer layer shows a
      value; or the block has no record and the writes pending for the disk do not change the key; or the block's
      last record says what was shown before. */
  predicate MoveIsSafe(mem: seq<Record>, disk: Disk, pending: seq<(string, string)>, newer: seq<string>, block: string,
                       key: string)
  {
    var n, f := Layered(mem, newer, key), FindVal(mem, key, block);
    || (n.Some? && n.value != "")
    || (f.None? && DiskRead(Written(disk, pending), key) == DiskRead(disk, key))
    || (f.Some? && LastVal(mem, key, block) == Some(if n.None? && f.value != "" then f.value else DiskRead(disk, key)))
  }

  /** Moving the oldest block of a layer list to disk keeps the read of a key exactly then, whether the list is
      kept or shortened afterwards. */
  lemma MoveKeepsReadIff(mem: seq<Record>, disk: Disk, pending: seq<(string, string)>, newer: seq<string>, block: string,
                         key: string)
    requires block !in newer
    ensures var mem', disk' := Dropped(mem, block), Written(disk, pending + Pairs(mem, block));
            && (Read(mem', disk', newer, key) == Read(mem, disk, newer + [block], key) <==>
                  MoveIsSafe(mem, disk, pending, newer, block, key))
            && (Read(mem', disk', newer + [block], key) == Read(mem, disk, newer + [block], key) <==>
                  MoveIsSafe(mem, disk, pending, newer, block, key))
  {
    LayeredAfterDrop(mem, newer, block, key);
    WrittenSplit(disk, pending, Pairs(mem, block));
    PairsWriteLast(mem, Written(disk, pending), block, key);
    LastIfFirst(mem, key, block);
  }

  predicate Matches(r: Record, key: string, block: string) { r.key == key && r.block == block }

  /** The block has at most one record for the key. */
  ghost predicate OneRecord(mem: seq<Record>, key: string, block: string) {
    forall i, j | 0 <= i < j < |mem| :: !(Matches(mem[i], key, block) && Matches(mem[j], key, block))
  }

  /** No record for the key in these blocks has an empty value. */
  ghost predicate NoEmptyValue(mem: seq<Record>, key: string, blocks: seq<string>) {
    forall i | 0 <= i < |mem| && mem[i].key == key && mem[i].block in blocks :: mem[i].value != ""
  }

  lemma {:induction false} OneRecordIsLast(mem: seq<Record>, key: string, block: string)
    requires OneRecord(mem, key, block)
    ensures LastVal(mem, key, block) == FindVal(mem, key, block)
  {
    if mem != [] {
      OneRecordIsLast(mem[1..], key, block);
      if Matches(mem[0], key, block) {
        NotFound(mem[1..], key, block);
      }
    }
  }

  lemma {:induction false} NotFound(mem: seq<Record>, key: string, block: string)
    requires forall i | 0 <= i < |mem| :: !Matches(mem[i], key, block)
    ensures FindVal(mem, key, block) == None
  {
    if mem != [] {
      NotFound(mem[1..], key, block);
    }
  }

  lemma {:induction false} FoundNotEmpty(mem: seq<Record>, key: string, block: string, blocks: seq<string>)
    requires NoEmptyValue(mem, key, blocks) && block in blocks
    ensures FindVal(mem, key, block) != Some("")
  {
    if mem != [] {
      FoundNotEmpty(mem[1..], key, block, blocks);
    }
  }

  lemma {:induction false} LayeredNotEmpty(mem: seq<Record>, layers: seq<string>, key: string, blocks: seq<string>)
    requires NoEmptyValue(mem, key, blocks) && forall b | b in layers :: b in blocks
    ensures Layered(mem, layers, key) != Some("")
  {
    if layers != [] {
      FoundNotEmpty(mem, key, layers[0], blocks);
      LayeredNotEmpty(mem, layers[1..], key, blocks);
    }
  }

  /** In particular it does if the block has at most one record for the key, no layer an empty value for it, and
      no write to it is pending. */
  lemma MoveKeepsReads(mem: seq<Record>, disk: Disk, pending: seq<(string, string)>, newer: seq<string>, block: string,
                       key: string)
    requires block !in newer && OneRecord(mem, key, block) && NoEmptyValue(mem, key, newer + [block])
    requires !Touches(pending, key)
    ensures var mem', disk' := Dropped(mem, block), Written(disk, pending + Pairs(mem, block));
            && Read(mem', disk', newer + [block], key) == Read(mem, disk, newer + [block], key)
            && Read(mem', disk', newer, key) == Read(mem, disk, newer + [block], key)
  {
    MoveKeepsReadIff(mem, disk, pending, newer, block, key);
    WrittenKeeps(disk, pending, key);
    OneRecordIsLast(mem, key, block);
    FoundNotEmpty(mem, key, block, newer + [block]);
    LayeredNotEmpty(mem, newer, key, newer + [block]);
  }

  // ---- committing a chain ----

  /** All pairs of a chain of blocks, oldest first. */
  function Replay(mem: seq<Record>, chain: seq<string>): seq<(string, string)> {
    if chain == [] then [] else Pairs(mem, chain[0]) + Replay(mem, chain[1..])
  }

  /** Memory and disk after the blocks of a chain are moved to disk one after the other. */
  function Committed(mem: seq<Record>, disk: Disk, chain: seq<string>): (seq<Record>, Disk)
    decreases |chain|
  {
    if chain == [] then (mem, disk)
    else Committed(Dropped(mem, chain[0]), Written(disk, Pairs(mem, chain[0])), chain[1..])
  }

  ghost predicate Distinct(chain: seq<string>) { forall i, j | 0 <= i < j < |chain| :: chain[i] != chain[j] }

  lemma {:induction false} DropKeepsPairs(mem: seq<Record>, block: string, other: string)
    requires other != block
    ensures Pairs(Dropped(mem, block), other) == Pairs(mem, other)
  {
    if mem != [] {
      DropKeepsPairs(mem[1..], block, other);
      if mem[0].block != block {
        assert Dropped(mem, block)[1..] == Dropped(mem[1..], block);
      } else {
        assert Dropped(mem, block) == Dropped(mem[1..], block);
      }
    }
  }

  lemma {:induction false} DropKeepsReplay(mem: seq<Record>, block: string, chain: seq<string>)
    requires block !in chain
    ensures Replay(Dropped(mem, block), chain) == Replay(mem, chain)
  {
    if chain != [] {
      DropKeepsPairs(mem, block, chain[0]);
      DropKeepsReplay(mem, block, chain[1..]);
    }
  }

  /** Committing a chain oldest first leaves the disk as if all its writes had been made in order. */
  lemma {:induction false} CommitIsReplay(mem: seq<Record>, disk: Disk, chain: seq<string>)
    requires Distinct(chain)
    ensures Committed(mem, disk, chain).1 == Written(disk, Replay(mem, chain))
    decreases |chain|
  {
    if chain != [] {
      var block, rest := chain[0], chain[1..];
      CommitIsReplay(Dropped(mem, block), Written(disk, Pairs(mem, block)), rest);
      DropKeepsReplay(mem, block, rest);
      WrittenSplit(disk, Pairs(mem, block), Replay(mem, rest));
    }
  }

  function Reversed(chain: seq<string>): seq<string> {
    if chain == [] then [] else Reversed(chain[1..]) + [chain[0]]
  }

  lemma {:induction false} ReversedHas(chain: seq<string>, b: string)
    ensures b in Reversed(chain) <==> b in chain
  {
    if chain != [] {
      ReversedHas(chain[1..], b);
      assert chain == [chain[0]] + chain[1..];
    }
  }

  /** The last record of the first layer that has one. */
  function LayeredLast(mem: seq<Record>, layers: seq<string>, key: string): Option<string> {
    if layers == [] then None
    else
      var r := LastVal(mem, key, layers[0]);
      if r.Some? then r else LayeredLast(mem, layers[1..], key)
  }

  lemma {:induction false} LastIfLayered(mem: seq<Record>, layers: seq<string>, key: string)
    ensures LayeredLast(mem, layers, key).Some? <==> Layered(mem, layers, key).Some?
  {
    if layers != [] {
      LastIfFirst(mem, key, layers[0]);
      LastIfLayered(mem, layers[1..], key);
    }
  }

  lemma {:induction false} DropKeepsLast(mem: seq<Record>, block: string, key: string, other: string)
    requires other != block
    ensures LastVal(Dropped(mem, block), key, other) == LastVal(mem, key, other)
  {
    if mem != [] {
      DropKeepsLast(mem[1..], block, key, other);
      if mem[0].block != block {
        assert Dropped(mem, block)[1..] == Dropped(mem[1..], block);
      } else {
        assert Dropped(mem, block) == Dropped(mem[1..], block);
      }
    }
  }

  lemma {:induction false} LastAfterDrop(mem: seq<Record>, layers: seq<string>, block: string, key: string)
    requires block !in layers
    ensures LayeredLast(Dropped(mem, block), layers, key) == LayeredLast(mem, layers, key)
    ensures LayeredLast(mem, layers + [block], key)
         == if LayeredLast(mem, layers, key).Some? then LayeredLast(mem, layers, key) else LastVal(mem, key, block)
  {
    var longer := layers + [block];
    if layers == [] {
      assert longer[1..] == [];
    } else {
      DropKeepsLast(mem, block, key, layers[0]);
      LastAfterDrop(mem, layers[1..], block, key);
      assert longer[1..] == layers[1..] + [block];
    }
  }

  /** What a committed chain leaves on disk for a key. */
  lemma {:induction false} CommitWritesLast(mem: seq<Record>, disk: Disk, chain: seq<string>, key: string)
    requires Distinct(chain)
    ensures var r := LayeredLast(mem, Reversed(chain), key);
            DiskRead(Committed(mem, disk, chain).1, key) == if r.Some? then r.value else DiskRead(disk, key)
    decreases |chain|
  {
    if chain != [] {
      var block, rest := chain[0], chain[1..];
      ReversedHas(rest, block);
      assert block !in rest;
      LastAfterDrop(mem, Reversed(rest), block, key);
      PairsWriteLast(mem, disk, block, key);
      CommitWritesLast(Dropped(mem, block), Written(disk, Pairs(mem, block)), rest, key);
    }
  }

  /** Once a chain is committed the disk shows what its layers showed for a key exactly if no layer has a record
      for it, or the last record of the newest layer with one says what was shown. */
  lemma CommitKeepsReadIff(mem: seq<Record>, disk: Disk, chain: seq<string>, key: string)
    requires Distinct(chain)
    ensures var layers := Reversed(chain);
            var n := Layered(mem, layers, key);
            DiskRead(Committed(mem, disk, chain).1, key) == Read(mem, disk, layers, key) <==>
              n.None? || LayeredLast(mem, layers, key) == Some(if n.value != "" then n.value else DiskRead(disk, key))
  {
    CommitWritesLast(mem, disk, chain, key);
    LastIfLayered(mem, Reversed(chain), key);
  }

  lemma {:induction false} OneRecordLayered(mem: seq<Record>, layers: seq<string>, key: string)
    requires forall b | b in layers :: OneRecord(mem, key, b)
    ensures LayeredLast(mem, layers, key) == Layered(mem, layers, key)
  {
    if layers != [] {
      OneRecordIsLast(mem, key, layers[0]);
      OneRecordLayered(mem, layers[1..], key);
    }
  }

  /** In particular if every block of the chain has at most one record for the key, with a value. */
  lemma CommitKeepsReads(mem: seq<Record>, disk: Disk, chain: seq<string>, key: string)
    requires Distinct(chain) && NoEmptyValue(mem, key, chain) && forall b | b in chain :: OneRecord(mem, key, b)
    ensures DiskRead(Committed(mem, disk, chain).1, key) == Read(mem, disk, Reversed(chain), key)
  {
    forall b ensures b in Reversed(chain) <==> b in chain {
      ReversedHas(chain, b);
    }
    CommitKeepsReadIff(mem, disk, chain, key);
    OneRecordLayered(mem, Reversed(chain), key);
    LayeredNotEmpty(mem, Reversed(chain), key, chain);
  }

  // ---- the conditions are needed ----

  /** Two records for one key in the block: memory shows the first, the disk ends up with the second. */
  lemma TwoRecordsChangeRead(disk: Disk, block: string, key: string, v: string, w: string)
    requires v != w && v != ""
    ensures var mem := [Record(key, v, block), Record(key, w, block)];
            && Read(mem, disk, [block], key) == v
            && Read(Dropped(mem, block), Written(disk, Pairs(mem, block)), [block], key) == w
  {
    var mem := [Record(key, v, block), Record(key, w, block)];
    assert mem[1..] == [Record(key, w, block)] && mem[1..][1..] == [];
    assert Pairs(mem[1..], block) == [(key, w)];
    assert Pairs(mem, block) == [(key, v), (key, w)];
    WrittenFinds(disk, Pairs(mem, block), key, 1);
    assert Dropped(mem[1..], block) == [];
    assert Dropped(mem, block) == [];
    assert Layered([], [block], key) == None by { assert [block][1..] == []; }
  }

  /** An empty value in a newer block lets reads fall through to the disk, which moving the older changes. */
  lemma EmptyValueChangesRead(disk: Disk, newer: string, block: string, key: string, w: string)
    requires newer != block && w != DiskRead(disk, key)
    ensures var mem := [Record(key, w, block), Record(key, "", newer)];
            && Read(mem, disk, [newer, block], key) == DiskRead(disk, key)
            && Read(Dropped(mem, block), Written(disk, Pairs(mem, block)), [newer, block], key) == w
  {
    var mem := [Record(key, w, block), Record(key, "", newer)];
    assert mem[1..] == [Record(key, "", newer)] && mem[1..][1..] == [];
    assert Pairs(mem[1..], block) == [];
    assert Pairs(mem, block) == [(key, w)];
    WrittenFinds(disk, Pairs(mem, block), key, 0);
    assert FindVal(mem, key, newer) == Some("");
    DropKeepsOthers(mem, block, key, newer);
  }
}
