/**
  One producer's sub-queue as a whole: the ticket protocol decides which consumer gets which indices,
  the block index says where the elements of those indices are.  The two machines share the published
  items (tailIndex) and the head, and run in lockstep on the steps that move these.
 */
module ImplicitQueue {
  import opened Wrappers
  import Tickets = TicketDequeue
  import Index = BlockIndex
  import Proof = BlockIndexProof

  datatype State<T> = State(tickets: Tickets.State<T>, index: Index.State<T>)

  ghost predicate Init<T>(s: State<T>) { Tickets.Init(s.tickets) && Index.Init(s.index) }

  /** tailIndex.store: the element is in its cell and becomes visible to the tickets. */
  ghost predicate Publishes<T>(s: State<T>, s': State<T>, x: T) {
    && Index.Typed(s.index) && Index.Enabled(s.index, Index.Enqueue(x))
    && s'.index == Index.Apply(s.index, Index.Enqueue(x))
    && s'.tickets == Tickets.Apply(s.tickets, Tickets.Publish([x]))
  }

  /** headIndex.fetch_add: the winner of `won` tickets claims as many indices. */
  ghost predicate Claims<T>(s: State<T>, s': State<T>, t: nat) {
    && Tickets.Enabled(s.tickets, Tickets.AdvanceHead(t))
    && s'.tickets == Tickets.Apply(s.tickets, Tickets.AdvanceHead(t))
    && var won := s.tickets.consumers[t].won;
       if won == 0 then s'.index == s.index
       else && Index.Typed(s.index) && Index.Enabled(s.index, Index.Claim(won))
            && s'.index == Index.Apply(s.index, Index.Claim(won))
  }

  ghost predicate TicketsAlone<T(!new)>(s: State<T>, s': State<T>) {
    && s'.index == s.index
    && exists a: Tickets.Action<T> ::
         && !a.Publish? && !a.AdvanceHead? && Tickets.Enabled(s.tickets, a)
         && s'.tickets == Tickets.Apply(s.tickets, a)
  }

  ghost predicate IndexAlone<T(!new)>(s: State<T>, s': State<T>) {
    && s'.tickets == s.tickets && Index.Typed(s.index)
    && exists a: Index.Action<T> ::
         && !a.Enqueue? && !a.Claim? && Index.Enabled(s.index, a)
         && s'.index == Index.Apply(s.index, a)
  }

  ghost predicate Next<T(!new)>(s: State<T>, s': State<T>) {
    || (exists x :: Publishes(s, s', x))
    || (exists t :: Claims(s, s', t))
    || TicketsAlone(s, s')
    || IndexAlone(s, s')
  }

  ghost predicate Run<T(!new)>(run: seq<State<T>>) {
    && |run| > 0 && Init(run[0])
    && forall i, j | 0 <= i < j < |run| && j == i + 1 :: Next(run[i], run[j])
  }

  ghost predicate Inv<T>(s: State<T>) {
    && Tickets.Inv(s.tickets) && Proof.Inv(s.index)
    && s.tickets.items == s.index.items && s.tickets.head == s.index.head
  }

  lemma PublishKeepsInv<T(!new)>(s: State<T>, s': State<T>, x: T)
    requires Inv(s) && Publishes(s, s', x)
    ensures Inv(s')
  {
    assert Tickets.Enabled(s.tickets, Tickets.Publish([x]));
    Tickets.StepKeepsInv(s.tickets, s'.tickets);
    Proof.EnqueueKeepsInv(s.index, x);
  }

  lemma ClaimKeepsInv<T(!new)>(s: State<T>, s': State<T>, t: nat)
    requires Inv(s) && Claims(s, s', t)
    ensures Inv(s')
  {
    Tickets.AdvanceHeadKeepsInv(s.tickets, t);
    if s.tickets.consumers[t].won > 0 {
      Proof.ClaimKeepsInv(s.index, s.tickets.consumers[t].won);
    }
  }

  lemma TicketsAloneKeepInv<T(!new)>(s: State<T>, s': State<T>)
    requires Inv(s) && TicketsAlone(s, s')
    ensures Inv(s')
  {
    assert Tickets.Next(s.tickets, s'.tickets);
    Tickets.StepKeepsInv(s.tickets, s'.tickets);
  }

  lemma IndexAloneKeepsInv<T(!new)>(s: State<T>, s': State<T>)
    requires Inv(s) && IndexAlone(s, s')
    ensures Inv(s')
  {
    assert Index.Next(s.index, s'.index);
    Proof.StepKeepsInv(s.index, s'.index);
    IndexAloneMovesNoCounter(s, s');
  }

  lemma IndexAloneMovesNoCounter<T(!new)>(s: State<T>, s': State<T>)
    requires IndexAlone(s, s')
    ensures s'.index.items == s.index.items && s'.index.head == s.index.head
  {
    var a: Index.Action<T> :| !a.Enqueue? && !a.Claim? && Index.Enabled(s.index, a) && s'.index == Index.Apply(s.index, a);
    LookupMovesNoCounter(s.index, a);
  }

  lemma LookupMovesNoCounter<T>(s: Index.State<T>, a: Index.Action<T>)
    requires Index.Typed(s) && Index.Enabled(s, a) && !a.Enqueue? && !a.Claim?
    ensures Index.Apply(s, a).items == s.items && Index.Apply(s, a).head == s.head
  {
  }

  lemma StepKeepsInv<T(!new)>(s: State<T>, s': State<T>)
    requires Inv(s) && Next(s, s')
    ensures Inv(s')
  {
    if x :| Publishes(s, s', x) {
      PublishKeepsInv(s, s', x);
    } else if t :| Claims(s, s', t) {
      ClaimKeepsInv(s, s', t);
    } else if TicketsAlone(s, s') {
      TicketsAloneKeepInv(s, s');
    } else {
      IndexAloneKeepsInv(s, s');
    }
  }

  lemma {:induction false} RunKeepsInv<T(!new)>(run: seq<State<T>>, i: nat)
    requires Run(run) && i < |run|
    ensures Inv(run[i])
  {
    if i == 0 {
      Proof.InitHasInv(run[0].index);
    } else {
      RunKeepsInv(run, i - 1);
      StepKeepsInv(run[i - 1], run[i]);
    }
  }

  /** Winning tickets is licence enough: the block index can always serve the claim. */
  lemma WinnersCanClaim<T(!new)>(run: seq<State<T>>, i: nat, t: nat)
    requires Run(run) && i < |run| && Tickets.Enabled(run[i].tickets, Tickets.AdvanceHead(t))
    requires run[i].tickets.consumers[t].won > 0
    ensures Index.Typed(run[i].index)
    ensures Index.Enabled(run[i].index, Index.Claim(run[i].tickets.consumers[t].won))
  {
    RunKeepsInv(run, i);
    Proof.InvIsTyped(run[i].index);
    Tickets.ClaimIsPublished(run[i].tickets, t);
  }

  /** Every element a consumer reads is the one enqueued at an index it alone was handed, and that
      index was published before it was handed out. */
  lemma DeliversEnqueuedElementsOnce<T(!new)>(run: seq<State<T>>, i: nat, c: nat, k: nat)
    requires Run(run) && i < |run| && c < |run[i].index.consumers| && run[i].index.consumers[c].stage.Reading?
    requires run[i].index.consumers[c].lo <= k < Index.BlockEnd(run[i].index.consumers[c])
    ensures var s := run[i];
            var b := s.index.consumers[c].stage.block;
            && k < s.tickets.head <= |s.tickets.items|
            && b.Some? && (b.value, k % Index.BLOCK_SIZE) in s.index.cells
            && s.index.cells[(b.value, k % Index.BLOCK_SIZE)] == s.tickets.items[k]
    ensures forall d | 0 <= d < |run[i].index.consumers| && d != c ::
              !(run[i].index.consumers[d].lo <= k < run[i].index.consumers[d].hi)
  {
    RunKeepsInv(run, i);
    Tickets.WinnersWithinTail(run[i].tickets);
    Proof.ReadingFacts(run[i].index, c);
    Proof.ReadingCell(run[i].index, c, k);
    forall d | 0 <= d < |run[i].index.consumers| && d != c
      ensures !(run[i].index.consumers[d].lo <= k < run[i].index.consumers[d].hi)
    {
      OnlyHolder(run[i].index, c, d, k);
    }
  }

  lemma OnlyHolder<T>(s: Index.State<T>, c: nat, d: nat, k: nat)
    requires Proof.ConsumersOk(s) && c < |s.consumers| && d < |s.consumers| && c != d
    requires s.consumers[c].lo <= k < s.consumers[c].hi
    ensures !(s.consumers[d].lo <= k < s.consumers[d].hi)
  {
    assert Proof.Owed(c, s.consumers[c], s.head, s.holder, s.gone);
    assert s.holder[k] == c;
    assert Proof.Owed(d, s.consumers[d], s.head, s.holder, s.gone);
  }

  lemma ClaimGrowsHistory<T>(s: State<T>, s': State<T>, t: nat)
    requires Claims(s, s', t)
    ensures Proof.HistoryGrows(s.index, s'.index)
  {
    var won := s.tickets.consumers[t].won;
    if won > 0 {
      Proof.ActionGrowsHistory(s.index, Index.Claim(won));
    }
  }

  lemma LookupGrowsHistory<T(!new)>(s: State<T>, s': State<T>)
    requires IndexAlone(s, s')
    ensures Proof.HistoryGrows(s.index, s'.index)
  {
    var a: Index.Action<T> :| !a.Enqueue? && !a.Claim? && Index.Enabled(s.index, a) && s'.index == Index.Apply(s.index, a);
    Proof.ActionGrowsHistory(s.index, a);
  }

  lemma StepGrowsHistory<T(!new)>(s: State<T>, s': State<T>)
    requires Next(s, s')
    ensures Proof.HistoryGrows(s.index, s'.index)
  {
    if x :| Publishes(s, s', x) {
      Proof.ActionGrowsHistory(s.index, Index.Enqueue(x));
    } else if t: nat :| Claims(s, s', t) {
      ClaimGrowsHistory(s, s', t);
    } else if IndexAlone(s, s') {
      LookupGrowsHistory(s, s');
    }
  }

  lemma HistoryGrowsOn<T>(a: Index.State<T>, b: Index.State<T>, c: Index.State<T>)
    requires Proof.HistoryGrows(a, b) && Proof.HistoryGrows(b, c)
    ensures Proof.HistoryGrows(a, c)
  {
  }

  lemma StepOfRun<T(!new)>(run: seq<State<T>>, j: nat)
    requires Run(run) && 0 < j < |run|
    ensures Proof.HistoryGrows(run[j - 1].index, run[j].index)
  {
    StepGrowsHistory(run[j - 1], run[j]);
  }

  /** History grows from each state to the next. */
  ghost predicate GrowsStepwise<T>(run: seq<State<T>>) {
    forall i, j | 0 <= i < j < |run| && j == i + 1 :: Proof.HistoryGrows(run[i].index, run[j].index)
  }

  lemma RunGrowsStepwise<T(!new)>(run: seq<State<T>>)
    requires Run(run)
    ensures GrowsStepwise(run)
  {
    forall i, j | 0 <= i < j < |run| && j == i + 1 ensures Proof.HistoryGrows(run[i].index, run[j].index) {
      StepOfRun(run, j);
    }
  }

  lemma {:induction false} HistoryOnlyGrows<T>(run: seq<State<T>>, i: nat, j: nat)
    requires GrowsStepwise(run) && i <= j < |run|
    ensures Proof.HistoryGrows(run[i].index, run[j].index)
    decreases j
  {
    if i < j {
      HistoryOnlyGrows(run, i, j - 1);
      HistoryGrowsOn(run[i].index, run[j - 1].index, run[j].index);
    }
  }

  /** Claim c is still to deliver index k. */
  ghost predicate Owes<T>(s: Index.State<T>, c: nat, k: nat) {
    c < |s.consumers| && s.consumers[c].lo <= k < s.consumers[c].hi
  }

  lemma OwesMeans<T>(s: Index.State<T>, c: nat, k: nat)
    requires Proof.ConsumersOk(s) && Owes(s, c, k)
    ensures k < |s.holder| && s.holder[k] == c && k < |s.gone| && !s.gone[k]
  {
    assert Proof.Owed(c, s.consumers[c], s.head, s.holder, s.gone);
  }

  /** Over a whole run an index is delivered under one claim alone, and once emptied it is never delivered again. */
  lemma DeliveredOnceInRun<T(!new)>(run: seq<State<T>>, i: nat, j: nat, c: nat, d: nat, k: nat)
    requires Run(run) && i <= j < |run| && Owes(run[j].index, d, k)
    ensures Owes(run[i].index, c, k) ==> c == d
    ensures k < |run[i].index.gone| ==> !run[i].index.gone[k]
  {
    RunKeepsInv(run, i);
    RunKeepsInv(run, j);
    RunGrowsStepwise(run);
    HistoryOnlyGrows(run, i, j);
    OwesMeans(run[j].index, d, k);
    if Owes(run[i].index, c, k) {
      OwesMeans(run[i].index, c, k);
    }
  }
}
