/**
  The transaction pool: a vector that keeps stale entries, and the hash map of live ids, which enters as the
  set of its keys (OmpHashMap proves the map behind it).  The mutex around push is not modelled.
 */
module TransactionPool {
  type Id = string

  datatype Tx = Tx(id: Id, content: string)

  /** Position p holds the newest copy of a live transaction. */
  ghost predicate IsNewest(txs: seq<Tx>, live: set<Id>, p: nat) {
    p < |txs| && txs[p].id in live && forall q | p < q < |txs| :: txs[q].id != txs[p].id
  }

  /** The positions from i on that do, newest first. */
  ghost function NewestFrom(txs: seq<Tx>, live: set<Id>, i: nat): seq<nat>
    requires i <= |txs|
    decreases |txs| - i
  {
    if i == |txs| then []
    else NewestFrom(txs, live, i + 1) + if IsNewest(txs, live, i) then [i] else []
  }

  ghost function Newest(txs: seq<Tx>, live: set<Id>): seq<nat> { NewestFrom(txs, live, 0) }

  function IdsOf(txs: seq<Tx>): set<Id> { set i | 0 <= i < |txs| :: txs[i].id }

  /** NewestFrom lists exactly the positions it should, strictly descending. */
  lemma {:induction false} NewestFromIs(txs: seq<Tx>, live: set<Id>, i: nat)
    requires i <= |txs|
    ensures var ps := NewestFrom(txs, live, i);
            && (forall k | 0 <= k < |ps| :: i <= ps[k] && IsNewest(txs, live, ps[k]))
            && (forall p | i <= p && IsNewest(txs, live, p) :: p in ps)
            && (forall k, m | 0 <= k < m < |ps| :: ps[k] > ps[m])
    decreases |txs| - i
  {
    if i < |txs| {
      NewestFromIs(txs, live, i + 1);
      var before, ps := NewestFrom(txs, live, i + 1), NewestFrom(txs, live, i);
      assert ps == before + if IsNewest(txs, live, i) then [i] else [];
      forall k | 0 <= k < |ps| ensures i <= ps[k] && IsNewest(txs, live, ps[k]) {
        if k < |before| {
          assert ps[k] == before[k];
        } else {
          assert ps[k] == i;
        }
      }
    }
  }

  /** There are as many as there are live ids from i on. */
  lemma {:induction false} NewestCount(txs: seq<Tx>, live: set<Id>, i: nat)
    requires i <= |txs|
    ensures |NewestFrom(txs, live, i)| == |live * IdsOf(txs[i..])|
    decreases |txs| - i
  {
    if i < |txs| {
      NewestCount(txs, live, i + 1);
      var here, later := IdsOf(txs[i..]), IdsOf(txs[i + 1..]);
      IdsStep(txs, i);
      assert IsNewest(txs, live, i) <==> txs[i].id in live && txs[i].id !in later by {
        assert forall q | i < q < |txs| :: txs[q] == txs[i + 1..][q - i - 1];
      }
      if IsNewest(txs, live, i) {
        assert live * here == live * later + {txs[i].id};
      } else {
        assert live * here == live * later;
      }
    }
  }

  lemma IdsStep(txs: seq<Tx>, i: nat)
    requires i < |txs|
    ensures IdsOf(txs[i..]) == IdsOf(txs[i + 1..]) + {txs[i].id}
  {
    var a, b := txs[i..], txs[i + 1..];
    assert a == [txs[i]] + b;
    forall x | x in IdsOf(b) ensures x in IdsOf(a) {
      var k :| 0 <= k < |b| && b[k].id == x;
      assert a[k + 1].id == x;
    }
    assert a[0].id in IdsOf(a);
  }

  function Max(a: nat, b: nat): nat { if a < b then b else a }
  function Min(a: nat, b: nat): nat { if a < b then a else b }

  class TransactionPool {
    var txs: seq<Tx>
    var live: set<Id>

    /** Every live id has an entry in the vector. */
    ghost predicate Valid()
      reads this
    {
      live <= IdsOf(txs)
    }

    constructor ()
      ensures Valid() && txs == [] && live == {}
    {
      txs, live := [], {};
    }

    method Push(tx: Tx) returns (added: bool)
      requires Valid()
      modifies this
      ensures Valid() && (added <==> tx.id !in old(live))
      ensures added ==> txs == old(txs) + [tx] && live == old(live) + {tx.id}
      ensures !added ==> txs == old(txs) && live == old(live)
    {
      added := tx.id !in live;
      if added {
        live := live + {tx.id};
        txs := txs + [tx];
        assert txs[|txs| - 1].id == tx.id;
        assert IdsOf(old(txs)) <= IdsOf(txs) by {
          forall x | x in IdsOf(old(txs)) ensures x in IdsOf(txs) {
            var k :| 0 <= k < |old(txs)| && old(txs)[k].id == x;
            assert txs[k].id == x;
          }
        }
      }
    }

    method RemoveDuplicatedTransactions(ids: seq<Id>)
      requires Valid()
      modifies this`live
      ensures Valid() && live == old(live) - (set id | id in ids)
    {
      for i := 0 to |ids|
        invariant live == old(live) - (set id | id in ids[..i])
      {
        live := live - {ids[i]};
        assert ids[..i + 1] == ids[..i] + [ids[i]];
      }
      assert ids[..|ids|] == ids;
    }

    /** The size is the number of transactions that can be fetched. */
    method Size() returns (n: nat)
      requires Valid()
      ensures n == |Newest(txs, live)|
    {
      NewestCount(txs, live, 0);
      assert txs[0..] == txs && live * IdsOf(txs) == live;
      n := |live|;
    }

    /** fetchLastN: the first of the newest copies, as many as asked for (at least one) or as there are, and
        exactly their ids are no longer live. */
    method FetchLastN(n: nat) returns (r: seq<Tx>, ghost ps: seq<nat>)
      requires Valid()
      modifies this`live
      ensures Valid()
      ensures |ps| == |r| == Min(Max(n, 1), |old(live)|)
      ensures ps <= Newest(txs, old(live))
      ensures forall k | 0 <= k < |r| :: IsNewest(txs, old(live), ps[k]) && r[k] == txs[ps[k]]
      ensures forall k, m | 0 <= k < m < |r| :: ps[k] > ps[m] && r[k].id != r[m].id
      ensures live == old(live) - IdsOf(r) && IdsOf(r) <= old(live)
    {
      r, ps := [], [];
      var i := |txs|;
      ghost var was := live;
      while i > 0
        invariant 0 <= i <= |txs| && |r| == |ps| < Max(n, 1)
        invariant ps == NewestFrom(txs, was, i)
        invariant forall k | 0 <= k < |r| :: i <= ps[k] < |txs| && r[k] == txs[ps[k]]
        invariant live == was - IdsOf(r)
      {
        i := i - 1;
        ScanStep(txs, was, live, r, ps, i);
        if txs[i].id in live {
          ghost var before := r;
          r := r + [txs[i]];
          ps := ps + [i];
          IdsPush(before, txs[i]);
          live := live - {txs[i].id};
          if |r| >= n {
            break;
          }
        }
      }
      ghost var j: nat := i;
      NewestFromIs(txs, was, j);
      PrefixOfNewest(txs, was, j);
      Counted(txs, was, r, ps, j, n);
    }

    /** pop: the newest live transaction, or none if no id is live. */
    method Pop() returns (success: bool, tx: Tx)
      requires Valid()
      modifies this`live
      ensures Valid() && (success <==> old(live) != {})
      ensures success ==> && Newest(txs, old(live)) != [] && Newest(txs, old(live))[0] < |txs|
                           && tx == txs[Newest(txs, old(live))[0]] && live == old(live) - {tx.id}
      ensures !success ==> live == old(live)
    {
      tx := Tx("", "");
      success := false;
      if |live| == 0 {
        return;
      }
      ghost var was := live;
      NewestCount(txs, was, 0);
      assert txs[0..] == txs && was * IdsOf(txs) == was;
      var i := |txs|;
      while i > 0
        invariant 0 <= i <= |txs| && live == was && !success && NewestFrom(txs, was, i) == []
      {
        i := i - 1;
        assert was - IdsOf([]) == was;
        ScanStep(txs, was, live, [], [], i);
        if txs[i].id in live {
          tx := txs[i];
          live := live - {tx.id};
          success := true;
          PrefixOfNewest(txs, was, i);
          return;
        }
      }
    }
  }

  lemma IdsPush(r: seq<Tx>, tx: Tx)
    ensures IdsOf(r + [tx]) == IdsOf(r) + {tx.id}
  {
    var s := r + [tx];
    forall x | x in IdsOf(r) + {tx.id} ensures x in IdsOf(s) {
      if x in IdsOf(r) {
        var k :| 0 <= k < |r| && r[k].id == x;
        assert s[k].id == x;
      } else {
        assert s[|r|].id == x;
      }
    }
  }

  /** Scanning down, an id is still live exactly at the newest copy of a transaction that was. */
  lemma ScanStep(txs: seq<Tx>, was: set<Id>, live: set<Id>, r: seq<Tx>, ps: seq<nat>, i: nat)
    requires i < |txs| && ps == NewestFrom(txs, was, i + 1) && |r| == |ps| && live == was - IdsOf(r)
    requires forall k | 0 <= k < |r| :: i + 1 <= ps[k] < |txs| && r[k] == txs[ps[k]]
    ensures txs[i].id in live <==> IsNewest(txs, was, i)
    ensures NewestFrom(txs, was, i) == ps + if txs[i].id in live then [i] else []
  {
    NewestFromIs(txs, was, i + 1);
    var id := txs[i].id;
    if id in IdsOf(r) {
      var k :| 0 <= k < |r| && r[k].id == id;
      assert txs[ps[k]].id == id;
    }
    if id in was && !IsNewest(txs, was, i) {
      OldCopyIsTaken(txs, was, r, ps, i);
    }
  }

  lemma OldCopyIsTaken(txs: seq<Tx>, was: set<Id>, r: seq<Tx>, ps: seq<nat>, i: nat)
    requires i < |txs| && ps == NewestFrom(txs, was, i + 1) && |r| == |ps|
    requires forall k | 0 <= k < |r| :: i + 1 <= ps[k] < |txs| && r[k] == txs[ps[k]]
    requires txs[i].id in was && !IsNewest(txs, was, i)
    ensures txs[i].id in IdsOf(r)
  {
    NewestFromIs(txs, was, i + 1);
    var q :| i < q < |txs| && txs[q].id == txs[i].id;
    var p := LastCopy(txs, q);
    assert IsNewest(txs, was, p);
    var k :| 0 <= k < |ps| && ps[k] == p;
    assert r[k].id == txs[i].id;
  }

  lemma {:induction false} LastCopy(txs: seq<Tx>, q: nat) returns (p: nat)
    requires q < |txs|
    ensures q <= p < |txs| && txs[p].id == txs[q].id && forall m | p < m < |txs| :: txs[m].id != txs[p].id
    decreases |txs| - q
  {
    if m :| q < m < |txs| && txs[m].id == txs[q].id {
      p := LastCopy(txs, m);
    } else {
      p := q;
    }
  }

  lemma {:induction false} PrefixOfNewest(txs: seq<Tx>, live: set<Id>, i: nat)
    requires i <= |txs|
    ensures NewestFrom(txs, live, i) <= Newest(txs, live)
    decreases i
  {
    if i > 0 {
      PrefixOfNewest(txs, live, i - 1);
      assert NewestFrom(txs, live, i) <= NewestFrom(txs, live, i - 1);
    }
  }

  /** The scan stops early exactly when enough have been found. */
  lemma Counted(txs: seq<Tx>, live: set<Id>, r: seq<Tx>, ps: seq<nat>, i: nat, n: nat)
    requires i <= |txs| && live <= IdsOf(txs) && ps == NewestFrom(txs, live, i) && |r| == |ps|
    requires |r| <= Max(n, 1) && (i > 0 ==> |r| == Max(n, 1))
    ensures |r| == Min(Max(n, 1), |live|)
  {
    PrefixOfNewest(txs, live, i);
    NewestCount(txs, live, 0);
    assert txs[0..] == txs && live * IdsOf(txs) == live;
  }
}
