/** Write batches: lists of pending writes to a database, which is a map. */
module WriteBatches {
  /** The database after a batch is written: later writes win. */
  function Written<K, V>(db: map<K, V>, batch: seq<(K, V)>): map<K, V> {
    if batch == [] then db
    else
      var last := batch[|batch| - 1];
      Written(db, batch[..|batch| - 1])[last.0 := last.1]
  }

  ghost predicate Touches<K, V>(batch: seq<(K, V)>, k: K) { exists i :: 0 <= i < |batch| && batch[i].0 == k }

  lemma {:induction false} WrittenKeeps<K, V>(db: map<K, V>, batch: seq<(K, V)>, k: K)
    requires !Touches(batch, k)
    ensures k in Written(db, batch) <==> k in db
    ensures k in db ==> Written(db, batch)[k] == db[k]
  {
    if batch != [] {
      var front := batch[..|batch| - 1];
      assert forall i | 0 <= i < |front| :: front[i] == batch[i];
      WrittenKeeps(db, front, k);
      assert batch[|batch| - 1].0 != k;
    }
  }

  /** The last write to a key is what is found there. */
  lemma {:induction false} WrittenFinds<K, V>(db: map<K, V>, batch: seq<(K, V)>, k: K, i: nat)
    requires i < |batch| && batch[i].0 == k
    requires forall j | i < j < |batch| :: batch[j].0 != k
    ensures k in Written(db, batch) && Written(db, batch)[k] == batch[i].1
  {
    if i < |batch| - 1 {
      WrittenFinds(db, batch[..|batch| - 1], k, i);
    }
  }

  lemma {:induction false} WrittenSplit<K, V>(db: map<K, V>, a: seq<(K, V)>, b: seq<(K, V)>)
    ensures Written(db, a + b) == Written(Written(db, a), b)
  {
    if b == [] {
      assert a + b == a;
    } else {
      WrittenSplit(db, a, b[..|b| - 1]);
      assert (a + b)[..|a + b| - 1] == a + b[..|b| - 1];
    }
  }
}
