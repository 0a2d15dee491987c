/**
  Where blocks come from: the block index of one producer together with the free list that recycles the blocks of all
  (requisition_block, add_block_to_free_list).  Blocks are nodes of the free list.  A block is taken fresh, or handed
  out by the list, before it is placed in the index; the consumer that empties it returns it to the list.
 */
module BlockPool {
  import opened Wrappers
  import Index = BlockIndex
  import Proof = BlockIndexProof
  import List = FreeList

  /** Auxiliary sets: blocks never used yet, blocks the producer has in hand, and released blocks yet to be added. */
  datatype State<T> = State(index: Index.State<T>, list: List.State, unused: set<nat>, hand: set<nat>, returned: set<nat>)

  ghost predicate Init<T>(s: State<T>) {
    && Index.Init(s.index) && List.Init(s.list) && s.hand == {} && s.returned == {}
    && forall x | x in s.unused :: x < |s.list.phase|
  }

  /** A block from the initial pool or from memory. */
  ghost predicate TakesFresh<T>(s: State<T>, s': State<T>, x: nat) {
    x in s.unused && s' == s.(unused := s.unused - {x}, hand := s.hand + {x})
  }

  /** Another producer's sub-queue has used a block and emptied it. */
  ghost predicate UsesElsewhere<T>(s: State<T>, s': State<T>, x: nat) {
    x in s.hand && s' == s.(hand := s.hand - {x}, returned := s.returned + {x})
  }

  /** A step of the free list: only released blocks are added, and what try_get returns is in hand. */
  ghost predicate Lists<T>(s: State<T>, s': State<T>, a: List.Action) {
    && List.Typed(s.list) && List.Enabled(s.list, a) && (a.Add? ==> a.x in s.returned)
    && s' == s.(list := List.Apply(s.list, a),
                hand := if a.Finish? then s.hand + {s.list.threads[a.t].node} else s.hand,
                returned := if a.Add? then s.returned - {a.x} else s.returned)
  }

  /** A step of the block index: what is placed was in hand, and what is released is returned. */
  ghost predicate Indexes<T>(s: State<T>, s': State<T>, a: Index.Action<T>) {
    && Index.Typed(s.index) && Index.Enabled(s.index, a) && (a.StoreBlock? ==> a.block in s.hand)
    && s' == s.(index := Index.Apply(s.index, a),
                hand := if a.StoreBlock? then s.hand - {a.block} else s.hand,
                returned := if a.ReleaseBlock? then s.returned + {s.index.placed[s.index.consumers[a.c].stage.number].block}
                            else s.returned)
  }

  ghost predicate Next<T(!new)>(s: State<T>, s': State<T>) {
    || (exists x :: TakesFresh(s, s', x))
    || (exists x :: UsesElsewhere(s, s', x))
    || (exists a :: Lists(s, s', a))
    || (exists a :: Indexes(s, s', a))
  }

  ghost predicate Run<T(!new)>(run: seq<State<T>>) {
    && |run| > 0 && Init(run[0])
    && forall i, j | 0 <= i < j < |run| && j == i + 1 :: Next(run[i], run[j])
  }

  // ---- the invariant ----

  /** Block x is in the index and not released. */
  ghost predicate Live(placed: seq<Index.Placement>, x: nat) {
    exists n :: 0 <= n < |placed| && !placed[n].life.Released? && placed[n].block == x
  }

  ghost predicate Owned(list: List.State, x: nat) { x < |list.phase| && list.phase[x].Owned? }

  /** Everything outside the list is owned, and nothing is in two places. */
  ghost predicate Apart<T>(s: State<T>) {
    && s.unused !! s.hand && s.unused !! s.returned && s.hand !! s.returned
    && (forall x | x in s.unused + s.hand + s.returned :: Owned(s.list, x) && !Live(s.index.placed, x))
    && (forall x | Live(s.index.placed, x) :: Owned(s.list, x))
  }

  ghost predicate Inv<T>(s: State<T>) { Proof.Inv(s.index) && List.Inv(s.list) && Apart(s) }

  /** A block in hand can be placed: the producer never stores a block that is still in use. */
  lemma HandIsFree<T>(s: State<T>, x: nat)
    requires Apart(s) && Index.Typed(s.index) && x in s.hand && s.index.producer.TailStored?
    ensures Index.Enabled(s.index, Index.StoreBlock(x))
  {
    forall n | 0 <= n < |s.index.placed| && !s.index.placed[n].life.Released? ensures s.index.placed[n].block != x {
      assert Live(s.index.placed, s.index.placed[n].block);
    }
  }

  // ---- steps ----

  lemma ListKeepsApart<T>(s: State<T>, s': State<T>, a: List.Action)
    requires List.Inv(s.list) && Apart(s) && Lists(s, s', a)
    ensures Apart(s')
  {
    if a.Finish? {
      var x := s.list.threads[a.t].node;
      List.Facts(s.list, a.t);
      assert !Owned(s.list, x);
    }
    forall x | Owned(s.list, x) && !(a.Add? && a.x == x) ensures Owned(s'.list, x) {
      List.OwnedUntilAdded(s.list, a, x);
    }
  }

  lemma ListKeepsInv<T>(s: State<T>, s': State<T>, a: List.Action)
    requires Inv(s) && Lists(s, s', a)
    ensures Inv(s')
  {
    List.ActionKeepsInv(s.list, s'.list, a);
    ListKeepsApart(s, s', a);
  }

  lemma StoreIsLive(placed: seq<Index.Placement>, p: Index.Placement, x: nat)
    requires !p.life.Released?
    ensures Live(placed + [p], x) <==> Live(placed, x) || x == p.block
  {
    var after := placed + [p];
    if Live(placed, x) {
      var n :| 0 <= n < |placed| && !placed[n].life.Released? && placed[n].block == x;
      assert after[n].block == x;
    }
    if x == p.block {
      assert after[|placed|].block == x;
    }
  }

  lemma SameLive(placed: seq<Index.Placement>, placed': seq<Index.Placement>, x: nat)
    requires |placed| == |placed'|
    requires forall n | 0 <= n < |placed| ::
               placed'[n].block == placed[n].block && (placed'[n].life.Released? <==> placed[n].life.Released?)
    ensures Live(placed, x) <==> Live(placed', x)
  {
    if Live(placed, x) {
      var n :| 0 <= n < |placed| && !placed[n].life.Released? && placed[n].block == x;
      assert placed'[n].block == x;
    }
    if Live(placed', x) {
      var n :| 0 <= n < |placed'| && !placed'[n].life.Released? && placed'[n].block == x;
      assert placed[n].block == x;
    }
  }

  /** Releasing block number n takes its block, and no other, out of use. */
  lemma ReleaseIsDead(placed: seq<Index.Placement>, n: nat, x: nat)
    requires n < |placed| && !placed[n].life.Released? && Proof.DistinctBlocks(placed)
    ensures Live(placed[n := placed[n].(life := Index.Released)], x) <==> Live(placed, x) && x != placed[n].block
  {
    var after := placed[n := placed[n].(life := Index.Released)];
    if Live(after, x) {
      var m :| 0 <= m < |after| && !after[m].life.Released? && after[m].block == x;
      assert placed[m].block == x;
    }
    if Live(placed, x) && x != placed[n].block {
      var m :| 0 <= m < |placed| && !placed[m].life.Released? && placed[m].block == x;
      assert after[m].block == x;
    }
  }

  /** What an index step does to the blocks in use. */
  lemma IndexMovesLive<T>(s: Index.State<T>, a: Index.Action<T>, x: nat)
    requires Proof.Inv(s) && Index.Typed(s) && Index.Enabled(s, a)
    ensures var live := Live(s.placed, x);
            Live(Index.Apply(s, a).placed, x) <==>
              (if a.StoreBlock? then live || x == a.block
               else if a.ReleaseBlock? then live && x != s.placed[s.consumers[a.c].stage.number].block
               else live)
  {
    if a.StoreBlock? {
      StoreIsLive(s.placed, Index.Apply(s, a).placed[|s.placed|], x);
    } else if a.ReleaseBlock? {
      Proof.ReleaserFacts(s, a.c, Index.BLOCK_SIZE * s.consumers[a.c].stage.number);
      ReleaseIsDead(s.placed, s.consumers[a.c].stage.number, x);
    } else if a.SetEmpty? {
      Proof.ReadingFacts(s, a.c);
      SameLive(s.placed, Index.Apply(s, a).placed, x);
    }
  }

  lemma IndexKeepsApart<T>(s: State<T>, s': State<T>, a: Index.Action<T>)
    requires Proof.Inv(s.index) && Apart(s) && Indexes(s, s', a)
    ensures Apart(s')
  {
    if a.ReleaseBlock? {
      var n := s.index.consumers[a.c].stage.number;
      Proof.ReleaserFacts(s.index, a.c, Index.BLOCK_SIZE * n);
      assert Live(s.index.placed, s.index.placed[n].block);
    }
    forall x: nat
      ensures Live(s'.index.placed, x) <==>
                (if a.StoreBlock? then Live(s.index.placed, x) || x == a.block
                 else if a.ReleaseBlock? then
                   Live(s.index.placed, x) && x != s.index.placed[s.index.consumers[a.c].stage.number].block
                 else Live(s.index.placed, x))
    {
      IndexMovesLive(s.index, a, x);
    }
  }

  lemma IndexKeepsInv<T(!new)>(s: State<T>, s': State<T>, a: Index.Action<T>)
    requires Inv(s) && Indexes(s, s', a)
    ensures Inv(s')
  {
    assert Index.Next(s.index, s'.index);
    Proof.StepKeepsInv(s.index, s'.index);
    IndexKeepsApart(s, s', a);
  }

  lemma StepKeepsInv<T(!new)>(s: State<T>, s': State<T>)
    requires Inv(s) && Next(s, s')
    ensures Inv(s')
  {
    if a :| Lists(s, s', a) {
      ListKeepsInv(s, s', a);
    } else if a :| Indexes(s, s', a) {
      IndexKeepsInv(s, s', a);
    }
  }

  lemma InitHasInv<T>(s: State<T>)
    requires Init(s)
    ensures Inv(s)
  {
    Proof.InitHasInv(s.index);
    List.InitHasInv(s.list);
  }

  lemma {:induction false} RunKeepsInv<T(!new)>(run: seq<State<T>>, i: nat)
    requires Run(run) && i < |run|
    ensures Inv(run[i])
  {
    if i == 0 {
      InitHasInv(run[0]);
    } else {
      RunKeepsInv(run, i - 1);
      StepKeepsInv(run[i - 1], run[i]);
    }
  }

  /** In every state of every run a block in use is off the free list and not in the producer's hand, and a block in
      hand meets the guard under which the block index stores it. */
  lemma BlocksInUseAreApart<T(!new)>(run: seq<State<T>>, i: nat, x: nat)
    requires Run(run) && i < |run|
    ensures Live(run[i].index.placed, x) ==>
              x !in run[i].list.list && x !in run[i].hand && x !in run[i].unused && x !in run[i].returned
    ensures Index.Typed(run[i].index)
    ensures x in run[i].hand && run[i].index.producer.TailStored? ==> Index.Enabled(run[i].index, Index.StoreBlock(x))
  {
    RunKeepsInv(run, i);
    Proof.InvIsTyped(run[i].index);
    if x in run[i].hand && run[i].index.producer.TailStored? {
      HandIsFree(run[i], x);
    }
  }
}
