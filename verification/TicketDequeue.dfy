/**
  The optimistic ticket protocol by which any number of consumers claim element indices from one
  producer's sub-queue (ImplicitProducer::dequeue and dequeue_bulk).

  Every load, fetch_add and publishing store is one step.  Single dequeue is the bulk one with a
  maximum of 1: both take tickets from dequeueOptimisticCount, re-read the tail, and pay losing
  tickets back through dequeueOvercommit.
 */
module TicketDequeue {
  import opened Counting
  import opened CircularIndex

  /** Where one consumer stands; the fields are the locals it holds. */
  datatype Consumer =
    | Idle
    | SawTail(max: nat, tail: nat)
    | SawOvercommit(max: nat, tail: nat, over: nat)
    | Committed(over: nat, desired: nat)
    | Ticketed(over: nat, first: nat, desired: nat)
    | Decided(first: nat, won: nat, desired: nat)
    | Settled(first: nat, won: nat)

  /** History of one ticket, with the consumer that drew it. */
  datatype Fate =
    | Pending(owner: nat)
    | Won(owner: nat)
    | Claimed(owner: nat, index: nat)
    | Lost(owner: nat)
    | Repaid(owner: nat)

  /** The four shared counters (the tail is |items|), the consumers, and two history variables:
      the fate of every ticket and the ticket that claimed each index. */
  datatype State<T> = State(
    items: seq<T>,
    head: nat,
    optimistic: nat,
    overcommit: nat,
    consumers: seq<Consumer>,
    fates: seq<Fate>,
    claims: seq<nat>)

  datatype Action<T> =
    | Publish(batch: seq<T>)
    | LoadTail(t: nat, max: nat)
    | LoadOvercommit(t: nat)
    | LoadOptimistic(t: nat)
    | TakeTickets(t: nat)
    | RecheckTail(t: nat)
    | RepayOvercommit(t: nat)
    | AdvanceHead(t: nat)

  predicate Init<T>(s: State<T>) {
    && s.items == [] && s.head == s.optimistic == s.overcommit == 0
    && s.fates == [] && s.claims == []
    && (forall t | 0 <= t < |s.consumers| :: s.consumers[t] == Idle)
  }

  function Min(a: int, b: int): int { if a < b then a else b }

  predicate Enabled<T>(s: State<T>, a: Action<T>) {
    match a
    case Publish(_) => true
    case LoadTail(t, _) => t < |s.consumers| && s.consumers[t].Idle?
    case LoadOvercommit(t) => t < |s.consumers| && s.consumers[t].SawTail?
    case LoadOptimistic(t) => t < |s.consumers| && s.consumers[t].SawOvercommit?
    case TakeTickets(t) => t < |s.consumers| && s.consumers[t].Committed?
    case RecheckTail(t) => t < |s.consumers| && s.consumers[t].Ticketed?
    case RepayOvercommit(t) =>
      t < |s.consumers| && s.consumers[t].Decided? && s.consumers[t].won < s.consumers[t].desired
    case AdvanceHead(t) =>
      t < |s.consumers| &&
      (s.consumers[t].Settled? || (s.consumers[t].Decided? && s.consumers[t].won == s.consumers[t].desired))
  }

  /** How many of the tickets first .. first + desired pass the second look at the tail. */
  function Winners(over: nat, first: nat, desired: nat, tail: nat): (won: nat)
    ensures won <= desired
    ensures won > 0 ==> first + won - 1 - over < tail
    ensures won < desired ==> first + won - over >= tail
  {
    var actual := tail - (first - over);
    if actual > 0 then Min(desired, actual) else 0
  }

  function Mark(fates: seq<Fate>, t: nat, first: nat, won: nat, desired: nat): (r: seq<Fate>)
    ensures |r| == |fates|
  {
    seq(|fates|, k requires 0 <= k < |fates| =>
      if first <= k < first + won then Won(t)
      else if first + won <= k < first + desired then Lost(t)
      else fates[k])
  }

  function Repay(fates: seq<Fate>, t: nat, lo: nat, hi: nat): (r: seq<Fate>)
    ensures |r| == |fates|
  {
    seq(|fates|, k requires 0 <= k < |fates| => if lo <= k < hi then Repaid(t) else fates[k])
  }

  function Claim(fates: seq<Fate>, t: nat, first: nat, won: nat, head: nat): (r: seq<Fate>)
    ensures |r| == |fates|
  {
    seq(|fates|, k requires 0 <= k < |fates| =>
      if first <= k < first + won then Claimed(t, head + (k - first)) else fates[k])
  }

  function Apply<T>(s: State<T>, a: Action<T>): State<T>
    requires Enabled(s, a)
  {
    match a
    case Publish(batch) => s.(items := s.items + batch)
    case LoadTail(t, max) => s.(consumers := s.consumers[t := SawTail(max, |s.items|)])
    case LoadOvercommit(t) =>
      var c := s.consumers[t];
      s.(consumers := s.consumers[t := SawOvercommit(c.max, c.tail, s.overcommit)])
    case LoadOptimistic(t) =>
      var c := s.consumers[t];
      var available := c.tail - (s.optimistic - c.over);
      s.(consumers := s.consumers[t :=
        if available > 0 then Committed(c.over, Min(available, c.max)) else Idle])
    case TakeTickets(t) =>
      var c := s.consumers[t];
      s.(optimistic := s.optimistic + c.desired,
         fates := s.fates + seq(c.desired, _ => Pending(t)),
         consumers := s.consumers[t := Ticketed(c.over, s.optimistic, c.desired)])
    case RecheckTail(t) =>
      var c := s.consumers[t];
      var won := Winners(c.over, c.first, c.desired, |s.items|);
      s.(fates := Mark(s.fates, t, c.first, won, c.desired),
         consumers := s.consumers[t := Decided(c.first, won, c.desired)])
    case RepayOvercommit(t) =>
      var c := s.consumers[t];
      s.(overcommit := s.overcommit + (c.desired - c.won),
         fates := Repay(s.fates, t, c.first + c.won, c.first + c.desired),
         consumers := s.consumers[t := if c.won > 0 then Settled(c.first, c.won) else Idle])
    case AdvanceHead(t) =>
      var c := s.consumers[t];
      s.(head := s.head + c.won,
         fates := Claim(s.fates, t, c.first, c.won, s.head),
         claims := s.claims + seq(c.won, j => c.first + j),
         consumers := s.consumers[t := Idle])
  }

  ghost predicate Next<T(!new)>(s: State<T>, s': State<T>) {
    exists a: Action<T> :: Enabled(s, a) && s' == Apply(s, a)
  }

  /** A run of the protocol: any interleaving, of any length, of any number of consumers. */
  ghost predicate Run<T(!new)>(run: seq<State<T>>) {
    && |run| > 0 && Init(run[0])
    && forall i | 0 <= i < |run| - 1 :: Next(run[i], run[i + 1])
  }

  // ---- the invariant ----

  function RepaidOnes(f: Fate): nat { if f.Repaid? then 1 else 0 }
  function ClaimedOnes(f: Fate): nat { if f.Claimed? then 1 else 0 }
  function WonOnes(f: Fate): nat { if f.Won? then 1 else 0 }
  function LosingOnes(f: Fate): nat { if f.Lost? || f.Repaid? then 1 else 0 }
  function WinningOnes(f: Fate): nat { if f.Won? || f.Claimed? then 1 else 0 }

  /** Losing tickets among the first k. */
  function LosersBelow(fates: seq<Fate>, k: nat): nat
    requires k <= |fates|
  {
    Sum(fates[..k], LosingOnes)
  }

  ghost predicate Owns(fates: seq<Fate>, lo: nat, hi: nat, f: Fate) {
    lo <= hi <= |fates| && forall k | lo <= k < hi :: fates[k] == f
  }

  ghost predicate ConsumerOk<T>(s: State<T>, t: nat)
    requires t < |s.consumers|
  {
    match s.consumers[t]
    case Idle => true
    case SawTail(_, _) => true
    case SawOvercommit(_, _, over) => over <= s.overcommit
    case Committed(over, _) => over <= s.overcommit
    case Ticketed(over, first, desired) =>
      && Owns(s.fates, first, first + desired, Pending(t))
      && over <= LosersBelow(s.fates, first)
    case Decided(first, won, desired) =>
      && Owns(s.fates, first, first + won, Won(t))
      && Owns(s.fates, first + won, first + desired, Lost(t))
    case Settled(first, won) => Owns(s.fates, first, first + won, Won(t))
  }

  /** An unsettled ticket is held by the consumer that drew it. */
  ghost predicate Held(c: Consumer, f: Fate, k: nat) {
    match f
    case Pending(_) => c.Ticketed? && c.first <= k < c.first + c.desired
    case Won(_) => (c.Decided? || c.Settled?) && c.first <= k < c.first + c.won
    case Lost(_) => c.Decided? && c.first + c.won <= k < c.first + c.desired
    case _ => true
  }

  ghost predicate ConsumersOk<T>(s: State<T>) {
    forall t | 0 <= t < |s.consumers| :: ConsumerOk(s, t)
  }

  ghost predicate TicketsHeld<T>(s: State<T>) {
    forall k | 0 <= k < |s.fates| ::
      s.fates[k].owner < |s.consumers| && Held(s.consumers[s.fates[k].owner], s.fates[k], k)
  }

  /** A winning ticket, discounted by the losing tickets below it, lies below the tail. */
  ghost predicate WinnersCovered<T>(s: State<T>) {
    forall k | 0 <= k < |s.fates| && WinningOnes(s.fates[k]) == 1 ::
      k - LosersBelow(s.fates, k) < |s.items|
  }

  predicate CountersOk<T>(s: State<T>) {
    && |s.fates| == s.optimistic
    && s.overcommit == Sum(s.fates, RepaidOnes)
    && s.head == Sum(s.fates, ClaimedOnes)
  }

  ghost predicate ClaimsOk<T>(s: State<T>) {
    && |s.claims| == s.head
    && (forall i | 0 <= i < |s.claims| ::
          s.claims[i] < |s.fates| && s.fates[s.claims[i]].Claimed? && s.fates[s.claims[i]].index == i)
    && (forall k | 0 <= k < |s.fates| && s.fates[k].Claimed? ::
          s.fates[k].index < |s.claims| && s.claims[s.fates[k].index] == k)
  }

  ghost predicate Inv<T>(s: State<T>) {
    && CountersOk(s)
    && WinnersCovered(s)
    && ClaimsOk(s)
    && ConsumersOk(s)
    && TicketsHeld(s)
  }

  // ---- the counting argument ----

  /** All winners lie at or below the largest one, and so do the losers below it: there are never
      more winning tickets than published elements. */
  lemma {:induction false} WinnersFit<T>(s: State<T>, n: nat)
    requires n <= |s.fates| && WinnersCovered(s)
    ensures Sum(s.fates[..n], WinningOnes) <= |s.items|
    decreases n
  {
    if n > 0 {
      var p := s.fates[..n];
      assert p[..n - 1] == s.fates[..n - 1];
      if WinningOnes(s.fates[n - 1]) == 0 {
        WinnersFit(s, n - 1);
      } else {
        WinnersAndLosers(s.fates, n - 1);
      }
    }
  }

  lemma {:induction false} WinnersAndLosers(fates: seq<Fate>, n: nat)
    requires n <= |fates|
    ensures Sum(fates[..n], WinningOnes) + LosersBelow(fates, n) <= n
  {
    if n > 0 {
      WinnersAndLosers(fates, n - 1);
      assert fates[..n][..n - 1] == fates[..n - 1];
    }
  }

  lemma LosersGrow(fates: seq<Fate>, fates': seq<Fate>, k: nat)
    requires k <= |fates| <= |fates'|
    requires forall j | 0 <= j < k :: LosingOnes(fates[j]) <= LosingOnes(fates'[j])
    ensures LosersBelow(fates, k) <= LosersBelow(fates', k)
  {
    SumMono(fates[..k], fates'[..k], LosingOnes);
  }

  lemma LosersMonotone(fates: seq<Fate>, j: nat, k: nat)
    requires j <= k <= |fates|
    ensures LosersBelow(fates, j) <= LosersBelow(fates, k)
  {
    assert fates[..k][..j] == fates[..j];
    SumPrefix(fates[..k], j, LosingOnes);
  }

  // ---- every step keeps the invariant ----

  lemma LocalStepsKeepInv<T>(s: State<T>, a: Action<T>)
    requires Inv(s) && Enabled(s, a)
    requires a.LoadTail? || a.LoadOvercommit? || a.LoadOptimistic? || a.Publish?
    ensures Inv(Apply(s, a))
  {
    var s' := Apply(s, a);
    assert s'.fates == s.fates;
    if a.Publish? {
      assert s'.consumers == s.consumers;
      forall t | 0 <= t < |s'.consumers| ensures ConsumerOk(s', t) { assert ConsumerOk(s, t); }
    } else {
      forall t | 0 <= t < |s'.consumers| ensures ConsumerOk(s', t) { assert ConsumerOk(s, t); }
    }
  }

  /** A step of consumer t touches only tickets t drew, and only turns them towards a loss. */
  ghost predicate StepOf<T>(s: State<T>, s': State<T>, t: nat) {
    && t < |s.consumers| == |s'.consumers|
    && (forall u | 0 <= u < |s.consumers| && u != t :: s'.consumers[u] == s.consumers[u])
    && s.overcommit <= s'.overcommit
    && |s.fates| <= |s'.fates|
    && (forall k | 0 <= k < |s.fates| && s.fates[k].owner != t :: s'.fates[k] == s.fates[k])
    && (forall k | 0 <= k < |s.fates| :: LosingOnes(s.fates[k]) <= LosingOnes(s'.fates[k]))
    && (forall k | 0 <= k < |s'.fates| && s'.fates[k].owner != t :: k < |s.fates| && s'.fates[k] == s.fates[k])
  }

  lemma OthersKeepOk<T>(s: State<T>, s': State<T>, t: nat)
    requires StepOf(s, s', t) && ConsumersOk(s) && ConsumerOk(s', t)
    ensures ConsumersOk(s')
  {
    forall u | 0 <= u < |s'.consumers| ensures ConsumerOk(s', u) {
      if u != t {
        assert ConsumerOk(s, u);
        if s.consumers[u].Ticketed? {
          LosersGrow(s.fates, s'.fates, s.consumers[u].first);
        }
      }
    }
  }

  lemma WinnersStayCovered<T>(s: State<T>, s': State<T>, t: nat)
    requires StepOf(s, s', t) && WinnersCovered(s) && |s.items| <= |s'.items|
    requires forall k | 0 <= k < |s'.fates| && WinningOnes(s'.fates[k]) == 1 ::
               || (k < |s.fates| && WinningOnes(s.fates[k]) == 1)
               || k - LosersBelow(s'.fates, k) < |s'.items|
    ensures WinnersCovered(s')
  {
    forall k | 0 <= k < |s'.fates| && WinningOnes(s'.fates[k]) == 1
      ensures k - LosersBelow(s'.fates, k) < |s'.items|
    {
      if k < |s.fates| && WinningOnes(s.fates[k]) == 1 {
        LosersGrow(s.fates, s'.fates, k);
      }
    }
  }

  lemma TakeTicketsFrame<T>(s: State<T>, t: nat)
    requires Enabled(s, TakeTickets(t)) && TicketsHeld(s) && ConsumerOk(s, t) && |s.fates| == s.optimistic
    ensures StepOf(s, Apply(s, TakeTickets(t)), t)
    ensures TicketsHeld(Apply(s, TakeTickets(t)))
  {
  }

  lemma TakeTicketsCounts<T>(s: State<T>, t: nat)
    requires Enabled(s, TakeTickets(t)) && CountersOk(s) && ConsumerOk(s, t)
    ensures CountersOk(Apply(s, TakeTickets(t))) && ConsumerOk(Apply(s, TakeTickets(t)), t)
  {
    var s', c := Apply(s, TakeTickets(t)), s.consumers[t];
    var extra := seq(c.desired, _ => Pending(t));
    SumAppend(s.fates, extra, RepaidOnes, 0);
    SumAppend(s.fates, extra, ClaimedOnes, 0);
    assert s'.fates[..|s.fates|] == s.fates;
    RepaidAreLosers(s.fates);
  }

  lemma TakeTicketsClaims<T>(s: State<T>, t: nat)
    requires Enabled(s, TakeTickets(t)) && ClaimsOk(s) && ConsumerOk(s, t)
    ensures ClaimsOk(Apply(s, TakeTickets(t)))
  {
  }

  lemma TakeTicketsKeepsInv<T>(s: State<T>, t: nat)
    requires Inv(s) && Enabled(s, TakeTickets(t))
    ensures Inv(Apply(s, TakeTickets(t)))
  {
    assert ConsumerOk(s, t);
    TakeTicketsFrame(s, t);
    TakeTicketsCounts(s, t);
    TakeTicketsClaims(s, t);
    OthersKeepOk(s, Apply(s, TakeTickets(t)), t);
    WinnersStayCovered(s, Apply(s, TakeTickets(t)), t);
  }

  lemma {:induction false} RepaidAreLosers(fates: seq<Fate>)
    ensures Sum(fates, RepaidOnes) <= Sum(fates, LosingOnes)
  {
    if |fates| > 0 {
      RepaidAreLosers(fates[..|fates| - 1]);
    }
  }

  lemma RecheckTailFrame<T>(s: State<T>, t: nat)
    requires Enabled(s, RecheckTail(t)) && TicketsHeld(s) && ConsumerOk(s, t) && |s.fates| == s.optimistic
    ensures StepOf(s, Apply(s, RecheckTail(t)), t)
    ensures TicketsHeld(Apply(s, RecheckTail(t)))
  {
  }

  lemma RecheckTailCounts<T>(s: State<T>, t: nat)
    requires Enabled(s, RecheckTail(t)) && CountersOk(s) && ConsumerOk(s, t)
    ensures CountersOk(Apply(s, RecheckTail(t))) && ConsumerOk(Apply(s, RecheckTail(t)), t)
  {
    var s', c := Apply(s, RecheckTail(t)), s.consumers[t];
    SumRange(s.fates, s'.fates, RepaidOnes, 0, 0, 0);
    SumRange(s.fates, s'.fates, ClaimedOnes, 0, 0, 0);
  }

  lemma RecheckTailClaims<T>(s: State<T>, t: nat)
    requires Enabled(s, RecheckTail(t)) && ClaimsOk(s) && ConsumerOk(s, t)
    ensures ClaimsOk(Apply(s, RecheckTail(t)))
  {
  }

  /** A ticket that wins had, when it was drawn, at least `over` losing tickets below it. */
  lemma NewWinnersCovered<T>(s: State<T>, t: nat)
    requires Inv(s) && Enabled(s, RecheckTail(t))
    ensures var s' := Apply(s, RecheckTail(t));
            forall k | 0 <= k < |s'.fates| && s'.fates[k] == Won(t) :: k - LosersBelow(s'.fates, k) < |s'.items|
  {
    var s', c := Apply(s, RecheckTail(t)), s.consumers[t];
    assert ConsumerOk(s, t);
    forall k | 0 <= k < |s'.fates| && s'.fates[k] == Won(t) ensures k - LosersBelow(s'.fates, k) < |s'.items| {
      assert c.first <= k;
      LosersGrow(s.fates, s'.fates, c.first);
      LosersMonotone(s'.fates, c.first, k);
    }
  }

  lemma RecheckTailKeepsInv<T>(s: State<T>, t: nat)
    requires Inv(s) && Enabled(s, RecheckTail(t))
    ensures Inv(Apply(s, RecheckTail(t)))
  {
    assert ConsumerOk(s, t);
    RecheckTailFrame(s, t);
    RecheckTailCounts(s, t);
    RecheckTailClaims(s, t);
    OthersKeepOk(s, Apply(s, RecheckTail(t)), t);
    NewWinnersCovered(s, t);
    WinnersStayCovered(s, Apply(s, RecheckTail(t)), t);
  }

  lemma RepayOvercommitFrame<T>(s: State<T>, t: nat)
    requires Enabled(s, RepayOvercommit(t)) && TicketsHeld(s) && ConsumerOk(s, t) && |s.fates| == s.optimistic
    ensures StepOf(s, Apply(s, RepayOvercommit(t)), t)
    ensures TicketsHeld(Apply(s, RepayOvercommit(t)))
  {
  }

  lemma RepayOvercommitCounts<T>(s: State<T>, t: nat)
    requires Enabled(s, RepayOvercommit(t)) && CountersOk(s) && ConsumerOk(s, t)
    ensures CountersOk(Apply(s, RepayOvercommit(t))) && ConsumerOk(Apply(s, RepayOvercommit(t)), t)
  {
    var s', c := Apply(s, RepayOvercommit(t)), s.consumers[t];
    SumRange(s.fates, s'.fates, RepaidOnes, c.first + c.won, c.first + c.desired, 1);
    SumRange(s.fates, s'.fates, ClaimedOnes, 0, 0, 0);
  }

  lemma RepayOvercommitClaims<T>(s: State<T>, t: nat)
    requires Enabled(s, RepayOvercommit(t)) && ClaimsOk(s) && ConsumerOk(s, t)
    ensures ClaimsOk(Apply(s, RepayOvercommit(t)))
  {
  }

  lemma RepayOvercommitKeepsInv<T>(s: State<T>, t: nat)
    requires Inv(s) && Enabled(s, RepayOvercommit(t))
    ensures Inv(Apply(s, RepayOvercommit(t)))
  {
    assert ConsumerOk(s, t);
    RepayOvercommitFrame(s, t);
    RepayOvercommitCounts(s, t);
    RepayOvercommitClaims(s, t);
    OthersKeepOk(s, Apply(s, RepayOvercommit(t)), t);
    WinnersStayCovered(s, Apply(s, RepayOvercommit(t)), t);
  }

  lemma AdvanceHeadFrame<T>(s: State<T>, t: nat)
    requires Enabled(s, AdvanceHead(t)) && TicketsHeld(s) && ConsumerOk(s, t) && |s.fates| == s.optimistic
    ensures StepOf(s, Apply(s, AdvanceHead(t)), t)
    ensures TicketsHeld(Apply(s, AdvanceHead(t)))
  {
  }

  lemma AdvanceHeadCounts<T>(s: State<T>, t: nat)
    requires Enabled(s, AdvanceHead(t)) && CountersOk(s) && ConsumerOk(s, t)
    ensures CountersOk(Apply(s, AdvanceHead(t))) && ConsumerOk(Apply(s, AdvanceHead(t)), t)
  {
    var s', c := Apply(s, AdvanceHead(t)), s.consumers[t];
    SumRange(s.fates, s'.fates, RepaidOnes, 0, 0, 0);
    SumRange(s.fates, s'.fates, ClaimedOnes, c.first, c.first + c.won, 1);
  }

  lemma AdvanceHeadClaims<T>(s: State<T>, t: nat)
    requires Enabled(s, AdvanceHead(t)) && ClaimsOk(s) && ConsumerOk(s, t)
    ensures ClaimsOk(Apply(s, AdvanceHead(t)))
  {
  }

  lemma AdvanceHeadKeepsInv<T>(s: State<T>, t: nat)
    requires Inv(s) && Enabled(s, AdvanceHead(t))
    ensures Inv(Apply(s, AdvanceHead(t)))
  {
    assert ConsumerOk(s, t);
    AdvanceHeadFrame(s, t);
    AdvanceHeadCounts(s, t);
    AdvanceHeadClaims(s, t);
    OthersKeepOk(s, Apply(s, AdvanceHead(t)), t);
    WinnersStayCovered(s, Apply(s, AdvanceHead(t)), t);
  }

  lemma StepKeepsInv<T(!new)>(s: State<T>, s': State<T>)
    requires Inv(s) && Next(s, s')
    ensures Inv(s')
  {
    var a: Action<T> :| Enabled(s, a) && s' == Apply(s, a);
    match a
    case TakeTickets(t) => TakeTicketsKeepsInv(s, t);
    case RecheckTail(t) => RecheckTailKeepsInv(s, t);
    case RepayOvercommit(t) => RepayOvercommitKeepsInv(s, t);
    case AdvanceHead(t) => AdvanceHeadKeepsInv(s, t);
    case _ => LocalStepsKeepInv(s, a);
  }

  lemma {:induction false} RunKeepsInv<T(!new)>(run: seq<State<T>>, i: nat)
    requires Run(run) && i < |run|
    ensures Inv(run[i])
  {
    if i > 0 {
      RunKeepsInv(run, i - 1);
      StepKeepsInv(run[i - 1], run[i]);
    }
  }

  // ---- what the protocol guarantees ----

  lemma WinnersWithinTail<T>(s: State<T>)
    requires Inv(s)
    ensures s.head + Sum(s.fates, WonOnes) <= |s.items|
  {
    SumSplit(s.fates, ClaimedOnes, WonOnes, WinningOnes);
    assert s.fates[..|s.fates|] == s.fates;
    WinnersFit(s, |s.fates|);
  }

  /** The head never passes the tail, even counting the winners that have yet to advance it. */
  lemma HeadNeverPassesTail<T(!new)>(run: seq<State<T>>, i: nat)
    requires Run(run) && i < |run|
    ensures run[i].head + Sum(run[i].fates, WonOnes) <= |run[i].items|
  {
    RunKeepsInv(run, i);
    WinnersWithinTail(run[i]);
  }

  lemma WonRangeFits(fates: seq<Fate>, lo: nat, hi: nat, t: nat)
    requires Owns(fates, lo, hi, Won(t))
    ensures hi - lo <= Sum(fates, WonOnes)
  {
    var without := seq(|fates|, k requires 0 <= k < |fates| => if lo <= k < hi then Lost(t) else fates[k]);
    SumRange(without, fates, WonOnes, lo, hi, 1);
  }

  /** A claim takes indices that are already published. */
  lemma ClaimIsPublished<T>(s: State<T>, t: nat)
    requires Inv(s) && Enabled(s, AdvanceHead(t))
    ensures s.head + s.consumers[t].won <= |s.items|
  {
    WinnersWithinTail(s);
    assert ConsumerOk(s, t);
    WonRangeFits(s.fates, s.consumers[t].first, s.consumers[t].first + s.consumers[t].won, t);
  }

  /** Every index below the head was handed to exactly one ticket, and no other index was handed out:
      `claims` lists the holders in index order and `index` is its inverse. */
  lemma IndexHandedOutOnce<T(!new)>(run: seq<State<T>>, i: nat)
    requires Run(run) && i < |run|
    ensures |run[i].claims| == run[i].head <= |run[i].items|
    ensures forall n | 0 <= n < |run[i].claims| ::
              && run[i].claims[n] < |run[i].fates|
              && run[i].fates[run[i].claims[n]].Claimed? && run[i].fates[run[i].claims[n]].index == n
    ensures forall k | 0 <= k < |run[i].fates| && run[i].fates[k].Claimed? ::
              run[i].fates[k].index < run[i].head && run[i].claims[run[i].fates[k].index] == k
    ensures forall j, k | 0 <= j < k < |run[i].fates| && run[i].fates[j].Claimed? && run[i].fates[k].Claimed? ::
              run[i].fates[j].index != run[i].fates[k].index
  {
    RunKeepsInv(run, i);
    HeadNeverPassesTail(run, i);
  }

  function SettledOnes(f: Fate): nat { if f.Claimed? || f.Repaid? then 1 else 0 }

  /** With no consumer in flight every ticket is accounted for: tickets minus overcommit is the head. */
  lemma QuiescentCountersAgree<T(!new)>(run: seq<State<T>>, i: nat)
    requires Run(run) && i < |run|
    requires forall t | 0 <= t < |run[i].consumers| :: run[i].consumers[t].Idle?
    ensures run[i].optimistic - run[i].overcommit == run[i].head
  {
    var s := run[i];
    RunKeepsInv(run, i);
    SumSplit(s.fates, RepaidOnes, ClaimedOnes, SettledOnes);
    forall k | 0 <= k < |s.fates| ensures SettledOnes(s.fates[k]) == 1 {
      assert Held(s.consumers[s.fates[k].owner], s.fates[k], k);
    }
    SumAppend([], s.fates, SettledOnes, 1);
    assert [] + s.fates == s.fates;
  }

  /** In a run with no consumer in flight a further dequeue succeeds exactly when elements remain. */
  lemma QuiescentDequeueIsExact<T(!new)>(run: seq<State<T>>, i: nat, t: nat, max: nat)
    requires Run(run) && i < |run| && t < |run[i].consumers| && max > 0
    requires forall u | 0 <= u < |run[i].consumers| :: run[i].consumers[u].Idle?
    ensures var s1 := Apply(Apply(run[i], LoadTail(t, max)), LoadOvercommit(t));
            var c := Apply(s1, LoadOptimistic(t)).consumers[t];
            if |run[i].items| <= run[i].head then c.Idle? && |run[i].items| == run[i].head
            else c == Committed(run[i].overcommit, Min(|run[i].items| - run[i].head, max))
  {
    QuiescentCountersAgree(run, i);
    IndexHandedOutOnce(run, i);
  }

  /** The word-sized tests of the code decide as the integer ones do, while fewer than 2^63 elements
      and tickets have been issued. */
  lemma DecisionsOnWords<T(!new)>(run: seq<State<T>>, i: nat, t: nat)
    requires Run(run) && i < |run| && t < |run[i].consumers| && run[i].consumers[t].Ticketed?
    requires run[i].optimistic < HALF && |run[i].items| < HALF
    ensures var s := run[i]; var c := s.consumers[t];
            && (CircularLess(Word(c.first - c.over), Word(|s.items|)) <==> c.first - c.over < |s.items|)
            && (CircularLess(0, Word(|s.items| - (c.first - c.over))) <==> c.first - c.over < |s.items|)
  {
    var s := run[i];
    var c := s.consumers[t];
    RunKeepsInv(run, i);
    assert ConsumerOk(s, t);
    WinnersAndLosers(s.fates, c.first);
    CircularLessIsLess(c.first - c.over, |s.items|);
    CircularLessIsLess(0, |s.items| - (c.first - c.over));
  }
}
