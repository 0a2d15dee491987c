/**
  The lock-free free list with reference counts packed into one 32-bit word per node
  (FreeList::add, try_get and add_knowing_refcount_is_zero), for any number of threads and nodes.
  Every atomic load, store, fetch_add, fetch_sub and compare_exchange is one step.
 */
module FreeList {
  import opened Wrappers
  import opened Counting

  const SHOULD_BE_ON_FREELIST: int := 0x8000_0000
  const WORD32: int := 0x1_0000_0000

  /** What a thread does once it is done adding a node: return, or go on with try_get's loop. */
  datatype Then = Return | Retry(seen: Option<nat>)

  /** Program points; `node` is the node worked on, `seen` the local copy of the head. */
  datatype Thread =
    | Idle
    // add_knowing_refcount_is_zero
    | AddStart(node: nat, k: Then)
    | AddLink(node: nat, seen: Option<nat>, k: Then)
    | AddPublish(node: nat, seen: Option<nat>, k: Then)
    | AddCas(node: nat, seen: Option<nat>, k: Then)
    | AddRetract(node: nat, seen: Option<nat>, k: Then)
    // try_get
    | GetReload
    | GetRefs(node: nat)
    | GetAcquire(node: nat, refs: int)
    | GetNext(node: nat)
    | GetCas(node: nat, next: Option<nat>)
    | GetTaken(node: nat)
    | GetDrop(node: nat, seen: Option<nat>)

  /** Auxiliary: who is responsible for a node.
      Owned: handed out.  Orphan: to be added by whoever drops the last reference.
      Adding, Offered: being added by a thread, before and after its count is set to 1.
      Listed: on the list.  Taken: unlinked by a thread that has yet to give up its references. */
  datatype Phase =
    | Owned(t: nat)
    | Orphan
    | Adding(t: nat)
    | Offered(t: nat)
    | Listed
    | Taken(t: nat)

  datatype State = State(
    refs: seq<int>,
    next: seq<Option<nat>>,
    head: Option<nat>,
    threads: seq<Thread>,
    phase: seq<Phase>,
    list: seq<nat>)

  datatype Action =
    | Add(t: nat, x: nat)
    | Transfer(x: nat, t: nat)
    | LoadHead(t: nat)
    | StoreNext(t: nat)
    | StoreOne(t: nat)
    | PushCas(t: nat)
    | Retract(t: nat)
    | TryGet(t: nat)
    | LoadRefs(t: nat)
    | AcquireCas(t: nat)
    | LoadNext(t: nat)
    | PopCas(t: nat)
    | Finish(t: nat)
    | Drop(t: nat)

  predicate NodeOk(s: State, th: Thread) {
    match th
    case Idle => true
    case GetReload => true
    case AddStart(x, k) => x < |s.refs| && ThenOk(s, k)
    case AddLink(x, h, k) => x < |s.refs| && SeenOk(s, h) && ThenOk(s, k)
    case AddPublish(x, h, k) => x < |s.refs| && SeenOk(s, h) && ThenOk(s, k)
    case AddCas(x, h, k) => x < |s.refs| && SeenOk(s, h) && ThenOk(s, k)
    case AddRetract(x, h, k) => x < |s.refs| && SeenOk(s, h) && ThenOk(s, k)
    case GetRefs(x) => x < |s.refs|
    case GetAcquire(x, _) => x < |s.refs|
    case GetNext(x) => x < |s.refs|
    case GetCas(x, n) => x < |s.refs| && SeenOk(s, n)
    case GetTaken(x) => x < |s.refs|
    case GetDrop(x, h) => x < |s.refs| && SeenOk(s, h)
  }

  predicate SeenOk(s: State, h: Option<nat>) { h.Some? ==> h.value < |s.refs| }
  predicate ThenOk(s: State, k: Then) { k.Retry? ==> SeenOk(s, k.seen) }

  /** Every node a thread or the list can name exists. */
  predicate Typed(s: State) {
    && |s.refs| == |s.next| == |s.phase| && SeenOk(s, s.head)
    && (forall t | 0 <= t < |s.threads| :: NodeOk(s, s.threads[t]))
    && (forall x | 0 <= x < |s.next| :: SeenOk(s, s.next[x]))
  }

  predicate Init(s: State) {
    && Typed(s) && s.head == None && s.list == [] && |s.threads| + 2 < SHOULD_BE_ON_FREELIST
    && (forall t | 0 <= t < |s.threads| :: s.threads[t] == Idle)
    && (forall x | 0 <= x < |s.refs| :: s.refs[x] == 0 && s.phase[x].Owned?)
  }

  predicate Enabled(s: State, a: Action)
    requires Typed(s)
  {
    match a
    case Add(t, x) => t < |s.threads| && x < |s.refs| && s.threads[t].Idle? && s.phase[x] == Owned(t)
    case Transfer(x, t) => x < |s.refs| && s.phase[x].Owned?
    case LoadHead(t) => t < |s.threads| && s.threads[t].AddStart?
    case StoreNext(t) => t < |s.threads| && s.threads[t].AddLink?
    case StoreOne(t) => t < |s.threads| && s.threads[t].AddPublish?
    case PushCas(t) => t < |s.threads| && s.threads[t].AddCas?
    case Retract(t) => t < |s.threads| && s.threads[t].AddRetract?
    case TryGet(t) => t < |s.threads| && (s.threads[t].Idle? || s.threads[t].GetReload?)
    case LoadRefs(t) => t < |s.threads| && s.threads[t].GetRefs?
    case AcquireCas(t) => t < |s.threads| && s.threads[t].GetAcquire?
    case LoadNext(t) => t < |s.threads| && s.threads[t].GetNext?
    case PopCas(t) => t < |s.threads| && s.threads[t].GetCas?
    case Finish(t) => t < |s.threads| && s.threads[t].GetTaken?
    case Drop(t) => t < |s.threads| && s.threads[t].GetDrop?
  }

  function Go(s: State, t: nat, th: Thread): State
    requires t < |s.threads|
  {
    s.(threads := s.threads[t := th])
  }

  /** The top of try_get's loop. */
  function Loop(h: Option<nat>): Thread { if h.None? then Idle else GetRefs(h.value) }

  function Resume(k: Then): Thread { if k.Return? then Idle else Loop(k.seen) }

  function SetRefs(s: State, x: nat, r: int): State
    requires x < |s.refs|
  {
    s.(refs := s.refs[x := r])
  }

  function SetPhase(s: State, x: nat, p: Phase): State
    requires x < |s.phase|
  {
    s.(phase := s.phase[x := p])
  }

  function Added(s: State, t: nat, x: nat): State
    requires Typed(s) && Enabled(s, Add(t, x))
  {
    var s1 := SetRefs(s, x, s.refs[x] + SHOULD_BE_ON_FREELIST);
    if s.refs[x] == 0 then Go(SetPhase(s1, x, Adding(t)), t, AddStart(x, Return))
    else Go(SetPhase(s1, x, Orphan), t, Idle)
  }

  function Linking(s: State, t: nat): State
    requires Typed(s) && Enabled(s, StoreNext(t))
  {
    var th := s.threads[t];
    Go(s.(next := s.next[th.node := th.seen]), t, AddPublish(th.node, th.seen, th.k))
  }

  function Offering(s: State, t: nat): State
    requires Typed(s) && Enabled(s, StoreOne(t))
  {
    var th := s.threads[t];
    Go(SetPhase(SetRefs(s, th.node, 1), th.node, Offered(t)), t, AddCas(th.node, th.seen, th.k))
  }

  function Pushed(s: State, t: nat): State
    requires Typed(s) && Enabled(s, PushCas(t))
  {
    var th := s.threads[t];
    if s.head == th.seen then
      Go(SetPhase(s, th.node, Listed).(head := Some(th.node), list := [th.node] + s.list), t, Resume(th.k))
    else Go(s, t, AddRetract(th.node, s.head, th.k))
  }

  function Retracted(s: State, t: nat): State
    requires Typed(s) && Enabled(s, Retract(t))
  {
    var th := s.threads[t];
    var s1 := SetRefs(s, th.node, s.refs[th.node] + SHOULD_BE_ON_FREELIST - 1);
    if s.refs[th.node] == 1 then Go(SetPhase(s1, th.node, Adding(t)), t, AddLink(th.node, th.seen, th.k))
    else Go(SetPhase(s1, th.node, Orphan), t, Resume(th.k))
  }

  function Acquired(s: State, t: nat): State
    requires Typed(s) && Enabled(s, AcquireCas(t))
  {
    var th := s.threads[t];
    if th.refs % SHOULD_BE_ON_FREELIST == 0 || s.refs[th.node] != th.refs then Go(s, t, GetReload)
    else Go(SetRefs(s, th.node, th.refs + 1), t, GetNext(th.node))
  }

  function Popped(s: State, t: nat): State
    requires Typed(s) && Enabled(s, PopCas(t))
  {
    var th := s.threads[t];
    if s.head == Some(th.node) then
      Go(SetPhase(s, th.node, Taken(t)).(head := th.next, list := if s.list == [] then [] else s.list[1..]),
         t, GetTaken(th.node))
    else Go(s, t, GetDrop(th.node, s.head))
  }

  function Finished(s: State, t: nat): State
    requires Typed(s) && Enabled(s, Finish(t))
  {
    var th := s.threads[t];
    Go(SetPhase(SetRefs(s, th.node, s.refs[th.node] - 2), th.node, Owned(t)), t, Idle)
  }

  function Dropped(s: State, t: nat): State
    requires Typed(s) && Enabled(s, Drop(t))
  {
    var th := s.threads[t];
    var s1 := SetRefs(s, th.node, s.refs[th.node] - 1);
    if s.refs[th.node] == SHOULD_BE_ON_FREELIST + 1 then
      Go(SetPhase(s1, th.node, Adding(t)), t, AddStart(th.node, Retry(th.seen)))
    else Go(s1, t, Loop(th.seen))
  }

  function Apply(s: State, a: Action): State
    requires Typed(s) && Enabled(s, a)
  {
    match a
    case Add(t, x) => Added(s, t, x)
    case Transfer(x, t) => SetPhase(s, x, Owned(t))
    case LoadHead(t) => Go(s, t, AddLink(s.threads[t].node, s.head, s.threads[t].k))
    case StoreNext(t) => Linking(s, t)
    case StoreOne(t) => Offering(s, t)
    case PushCas(t) => Pushed(s, t)
    case Retract(t) => Retracted(s, t)
    case TryGet(t) => Go(s, t, Loop(s.head))
    case LoadRefs(t) => Go(s, t, GetAcquire(s.threads[t].node, s.refs[s.threads[t].node]))
    case AcquireCas(t) => Acquired(s, t)
    case LoadNext(t) => Go(s, t, GetCas(s.threads[t].node, s.next[s.threads[t].node]))
    case PopCas(t) => Popped(s, t)
    case Finish(t) => Finished(s, t)
    case Drop(t) => Dropped(s, t)
  }

  ghost predicate Next(s: State, s': State) {
    Typed(s) && exists a :: Enabled(s, a) && s' == Apply(s, a)
  }

  ghost predicate Run(run: seq<State>) {
    && |run| > 0 && Init(run[0])
    && forall i, j | 0 <= i < j < |run| && j == i + 1 :: Next(run[i], run[j])
  }

  // ---- the invariant ----

  /** The node a thread holds a reference to. */
  function Held(th: Thread): Option<nat> {
    if th.GetNext? || th.GetCas? || th.GetTaken? || th.GetDrop? then Some(th.node) else None
  }

  function Hold(x: nat): Thread -> nat {
    (th: Thread) => if Held(th) == Some(x) then 1 else 0
  }

  predicate HoldsOnly(th: Thread, x: nat) { Held(th).Some? ==> Held(th).value == x }

  function Holders(s: State, x: nat): nat { Sum(s.threads, Hold(x)) }

  function ListRef(p: Phase): nat { if p.Offered? || p.Listed? || p.Taken? then 1 else 0 }
  function Flag(p: Phase): int { if p.Orphan? || p.Adding? then SHOULD_BE_ON_FREELIST else 0 }

  ghost predicate CountOk(s: State, x: nat)
    requires x < |s.refs| && x < |s.phase|
  {
    && s.refs[x] == Flag(s.phase[x]) + ListRef(s.phase[x]) + Holders(s, x)
    && (s.phase[x].Adding? ==> Holders(s, x) == 0)
    && (s.phase[x].Orphan? ==> Holders(s, x) > 0)
  }

  ghost predicate Counts(s: State) {
    && |s.refs| == |s.phase|
    && forall x | 0 <= x < |s.refs| :: CountOk(s, x)
  }

  /** Program point and phase agree. */
  ghost predicate ThreadOk(s: State, t: nat, th: Thread)
    requires |s.next| == |s.phase|
  {
    match th
    case AddStart(x, _) => x < |s.phase| && s.phase[x] == Adding(t)
    case AddLink(x, _, _) => x < |s.phase| && s.phase[x] == Adding(t)
    case AddPublish(x, h, _) => x < |s.phase| && s.phase[x] == Adding(t) && s.next[x] == h
    case AddCas(x, h, _) => x < |s.phase| && s.phase[x] == Offered(t) && s.next[x] == h
    case AddRetract(x, _, _) => x < |s.phase| && s.phase[x] == Offered(t)
    case GetCas(x, n) => x < |s.next| && s.next[x] == n
    case GetTaken(x) => x < |s.phase| && s.phase[x] == Taken(t)
    case _ => true
  }

  ghost predicate ThreadsOk(s: State) {
    && |s.next| == |s.phase|
    && forall t | 0 <= t < |s.threads| :: ThreadOk(s, t, s.threads[t])
  }

  /** A thread responsible for a node is at work on it. */
  ghost predicate Responsible(threads: seq<Thread>, p: Phase, x: nat) {
    match p
    case Adding(t) =>
      t < |threads| && (threads[t].AddStart? || threads[t].AddLink? || threads[t].AddPublish?) && threads[t].node == x
    case Offered(t) => t < |threads| && (threads[t].AddCas? || threads[t].AddRetract?) && threads[t].node == x
    case Taken(t) => t < |threads| && threads[t] == GetTaken(x)
    case _ => true
  }

  ghost predicate PhasesOk(s: State) {
    forall x | 0 <= x < |s.phase| :: Responsible(s.threads, s.phase[x], x)
  }

  /** Following next from a listed node leads to the one after it, and from the last one nowhere. */
  ghost predicate Linked(next: seq<Option<nat>>, list: seq<nat>) {
    && (forall i | 0 <= i < |list| :: list[i] < |next|)
    && (forall i, j | 0 <= i < j < |list| && j == i + 1 :: next[list[i]] == Some(list[j]))
    && (|list| > 0 ==> next[list[|list| - 1]] == None)
  }

  ghost predicate Distinct(list: seq<nat>) {
    forall i, j | 0 <= i < j < |list| :: list[i] != list[j]
  }

  ghost predicate ListsExactly(phase: seq<Phase>, list: seq<nat>) {
    && (forall i | 0 <= i < |list| :: list[i] < |phase| && phase[list[i]] == Listed)
    && (forall x | 0 <= x < |phase| && phase[x].Listed? :: x in list)
  }

  /** The shared pointers spell out `list`, which holds each listed node once. */
  ghost predicate ListOk(s: State) {
    && s.head == (if s.list == [] then None else Some(s.list[0]))
    && Linked(s.next, s.list) && Distinct(s.list) && ListsExactly(s.phase, s.list)
  }

  ghost predicate Inv(s: State) {
    && Typed(s) && |s.threads| + 2 < SHOULD_BE_ON_FREELIST
    && Counts(s) && ThreadsOk(s) && PhasesOk(s) && ListOk(s)
  }

  // ---- steps that touch one thread and at most one node ----

  function Update(s: State, t: nat, x: nat, r: int, n: Option<nat>, p: Phase, th: Thread): State
    requires t < |s.threads| && x < |s.refs| == |s.next| == |s.phase|
  {
    s.(refs := s.refs[x := r], next := s.next[x := n], phase := s.phase[x := p], threads := s.threads[t := th])
  }

  /** A thread adding or taking a node is responsible for it. */
  predicate InCharge(th: Thread) {
    th.AddStart? || th.AddLink? || th.AddPublish? || th.AddCas? || th.AddRetract? || th.GetTaken?
  }

  /** Nobody but t answers for a node in this phase. */
  predicate FreeFor(p: Phase, t: nat) {
    p.Owned? || p.Orphan? || (p.Adding? && p.t == t) || (p.Offered? && p.t == t) || (p.Taken? && p.t == t)
  }

  lemma HoldersUpdate(s: State, s': State, t: nat, th: Thread, y: nat)
    requires t < |s.threads| && s'.threads == s.threads[t := th]
    ensures Holders(s', y) == Holders(s, y) - Hold(y)(s.threads[t]) + Hold(y)(th)
  {
    SumUpdate(s.threads, t, th, Hold(y));
  }

  lemma NoHolder(s: State, x: nat, t: nat)
    requires t < |s.threads| && Holders(s, x) == 0
    ensures Hold(x)(s.threads[t]) == 0
  {
    SumAtLeast(s.threads, t, Hold(x));
  }

  lemma {:induction false} HoldersBound(threads: seq<Thread>, x: nat)
    ensures Sum(threads, Hold(x)) <= |threads|
  {
    if |threads| > 0 {
      HoldersBound(threads[..|threads| - 1], x);
    }
  }

  lemma CountsAfter(s: State, s': State, t: nat, x: nat, th: Thread)
    requires Counts(s) && t < |s.threads| && s'.threads == s.threads[t := th]
    requires |s'.refs| == |s'.phase| == |s.refs|
    requires forall y | 0 <= y < |s.refs| && y != x :: s'.refs[y] == s.refs[y] && s'.phase[y] == s.phase[y]
    requires Held(th) == Held(s.threads[t]) || (HoldsOnly(th, x) && HoldsOnly(s.threads[t], x))
    requires x < |s.refs| ==> CountOk(s', x)
    ensures Counts(s')
  {
    forall y | 0 <= y < |s'.refs| ensures CountOk(s', y) {
      if y != x {
        assert CountOk(s, y);
        HoldersUpdate(s, s', t, th, y);
      }
    }
  }

  lemma ThreadsAfter(s: State, s': State, t: nat, x: nat, th: Thread)
    requires ThreadsOk(s) && t < |s.threads| && s'.threads == s.threads[t := th]
    requires |s'.next| == |s'.phase| == |s.phase| && x < |s.phase|
    requires forall y | 0 <= y < |s.phase| && y != x :: s'.next[y] == s.next[y] && s'.phase[y] == s.phase[y]
    requires s'.phase[x] == s.phase[x] || FreeFor(s.phase[x], t) || s.phase[x].Listed?
    requires s'.next[x] == s.next[x] || (Holders(s, x) == 0 && s.phase[x] == Adding(t))
    requires ThreadOk(s', t, th)
    ensures ThreadsOk(s')
  {
    forall u | 0 <= u < |s'.threads| ensures ThreadOk(s', u, s'.threads[u]) {
      if u != t {
        assert ThreadOk(s, u, s.threads[u]);
        if s'.next[x] != s.next[x] {
          NoHolder(s, x, u);
        }
      }
    }
  }

  lemma PhasesAfter(s: State, s': State, t: nat, x: nat, th: Thread)
    requires PhasesOk(s) && t < |s.threads| && s'.threads == s.threads[t := th] && |s'.phase| == |s.phase|
    requires forall y | 0 <= y < |s.phase| && y != x :: s'.phase[y] == s.phase[y]
    requires InCharge(s.threads[t]) ==> s.threads[t].node == x
    requires x < |s.phase| ==> Responsible(s'.threads, s'.phase[x], x)
    ensures PhasesOk(s')
  {
    forall y | 0 <= y < |s'.phase| ensures Responsible(s'.threads, s'.phase[y], y) {
      if y != x {
        assert Responsible(s.threads, s.phase[y], y);
      }
    }
  }

  lemma ListAfter(s: State, s': State, x: nat)
    requires ListOk(s) && s'.head == s.head && s'.list == s.list
    requires |s.next| == |s'.next| == |s'.phase| == |s.phase| && x < |s.phase|
    requires forall y | 0 <= y < |s.phase| && y != x :: s'.next[y] == s.next[y] && s'.phase[y] == s.phase[y]
    requires !s.phase[x].Listed? && !s'.phase[x].Listed?
    ensures ListOk(s')
  {
    assert x !in s.list;
  }

  /** Holders of x once thread t moves to th. */
  function HoldersThen(s: State, t: nat, th: Thread, x: nat): int
    requires t < |s.threads|
  {
    Holders(s, x) - Hold(x)(s.threads[t]) + Hold(x)(th)
  }

  ghost predicate CountFits(r: int, p: Phase, h: int) {
    && r == Flag(p) + ListRef(p) + h
    && (p.Adding? ==> h == 0) && (p.Orphan? ==> h > 0)
  }

  /** A step of thread t on a node x that it, or nobody, answers for. */
  lemma NodeStep(s: State, s': State, t: nat, x: nat, r: int, n: Option<nat>, p: Phase, th: Thread)
    requires Inv(s) && t < |s.threads| && x < |s.refs|
    requires NodeOk(s, th) && SeenOk(s, n)
    requires FreeFor(s.phase[x], t) && !p.Listed?
    requires n == s.next[x] || (Holders(s, x) == 0 && s.phase[x] == Adding(t))
    requires InCharge(s.threads[t]) ==> s.threads[t].node == x
    requires HoldsOnly(th, x) && HoldsOnly(s.threads[t], x)
    requires CountFits(r, p, HoldersThen(s, t, th, x))
    requires s' == Update(s, t, x, r, n, p, th)
    requires ThreadOk(s', t, th) && Responsible(s'.threads, p, x)
    ensures Inv(s')
  {
    HoldersUpdate(s, s', t, th, x);
    CountsAfter(s, s', t, x, th);
    ThreadsAfter(s, s', t, x, th);
    PhasesAfter(s, s', t, x, th);
    ListAfter(s, s', x);
    assert Typed(s') by { TypedAfter(s, s', t, th); }
  }

  lemma UpdateIs(s: State, t: nat, x: nat, r: int, p: Phase, th: Thread)
    requires t < |s.threads| && x < |s.refs| == |s.next| == |s.phase|
    ensures Update(s, t, x, r, s.next[x], p, th) == Go(SetPhase(SetRefs(s, x, r), x, p), t, th)
  {
    assert s.next[x := s.next[x]] == s.next;
  }

  /** The same, for the steps that leave the next pointer alone. */
  lemma CountStep(s: State, s': State, t: nat, x: nat, r: int, p: Phase, th: Thread)
    requires Inv(s) && t < |s.threads| && x < |s.refs|
    requires NodeOk(s, th) && FreeFor(s.phase[x], t) && !p.Listed?
    requires InCharge(s.threads[t]) ==> s.threads[t].node == x
    requires HoldsOnly(th, x) && HoldsOnly(s.threads[t], x)
    requires CountFits(r, p, HoldersThen(s, t, th, x))
    requires s' == Go(SetPhase(SetRefs(s, x, r), x, p), t, th)
    requires ThreadOk(s', t, th) && Responsible(s'.threads, p, x)
    ensures Inv(s')
  {
    UpdateIs(s, t, x, r, p, th);
    NodeStep(s, s', t, x, r, s.next[x], p, th);
  }

  lemma TypedAfter(s: State, s': State, t: nat, th: Thread)
    requires Typed(s) && t < |s.threads| && s'.threads == s.threads[t := th] && NodeOk(s, th)
    requires |s'.refs| == |s'.next| == |s'.phase| == |s.refs| && SeenOk(s, s'.head)
    requires forall y | 0 <= y < |s.next| :: SeenOk(s, s'.next[y])
    ensures Typed(s')
  {
    forall u | 0 <= u < |s'.threads| ensures NodeOk(s', s'.threads[u]) {
      assert NodeOk(s, s.threads[u]);
      assert NodeOk(s, s'.threads[u]);
    }
  }

  predicate SameCharge(a: Thread, b: Thread) {
    || (!InCharge(a) && !InCharge(b))
    || (a.AddStart? && b.AddLink? && a.node == b.node)
    || (a.AddCas? && b.AddRetract? && a.node == b.node)
  }

  /** A step that only moves thread t's program point. */
  lemma ThreadStep(s: State, s': State, t: nat, th: Thread)
    requires Inv(s) && t < |s.threads| && NodeOk(s, th) && ThreadOk(s, t, th)
    requires Held(th) == Held(s.threads[t]) && SameCharge(s.threads[t], th)
    requires s' == Go(s, t, th)
    ensures Inv(s')
  {
    CountsAfter(s, s', t, |s.refs|, th);
    TypedAfter(s, s', t, th);
    forall u | 0 <= u < |s'.threads| ensures ThreadOk(s', u, s'.threads[u]) {
      if u != t { assert ThreadOk(s, u, s.threads[u]); }
    }
    forall x | 0 <= x < |s'.phase| ensures Responsible(s'.threads, s'.phase[x], x) {
      assert Responsible(s.threads, s.phase[x], x);
    }
  }

  // ---- each action ----

  lemma Facts(s: State, t: nat)
    requires Inv(s) && t < |s.threads|
    ensures NodeOk(s, s.threads[t]) && ThreadOk(s, t, s.threads[t])
  {
  }

  lemma RefsFit(s: State, x: nat)
    requires Inv(s) && x < |s.refs|
    ensures CountOk(s, x) && Holders(s, x) + 2 < SHOULD_BE_ON_FREELIST
  {
    assert CountOk(s, x);
    HoldersBound(s.threads, x);
  }

  lemma AddAtOnce(s: State, s': State, t: nat, x: nat)
    requires Inv(s) && Enabled(s, Add(t, x)) && s.refs[x] == 0
    requires s' == Added(s, t, x)
    ensures Inv(s')
  {
    RefsFit(s, x);
    CountStep(s, s', t, x, SHOULD_BE_ON_FREELIST, Adding(t), AddStart(x, Return));
  }

  lemma AddLater(s: State, s': State, t: nat, x: nat)
    requires Inv(s) && Enabled(s, Add(t, x)) && s.refs[x] != 0
    requires s' == Added(s, t, x)
    ensures Inv(s')
  {
    RefsFit(s, x);
    CountStep(s, s', t, x, s.refs[x] + SHOULD_BE_ON_FREELIST, Orphan, Idle);
  }

  lemma AddKeepsInv(s: State, s': State, t: nat, x: nat)
    requires Inv(s) && Enabled(s, Add(t, x))
    requires s' == Added(s, t, x)
    ensures Inv(s')
  {
    if s.refs[x] == 0 {
      AddAtOnce(s, s', t, x);
    } else {
      AddLater(s, s', t, x);
    }
  }

  lemma TransferKeepsInv(s: State, s': State, x: nat, t: nat)
    requires Inv(s) && Enabled(s, Transfer(x, t))
    requires s' == SetPhase(s, x, Owned(t))
    ensures Inv(s')
  {
    assert s'.threads == s.threads;
    forall y | 0 <= y < |s'.refs| ensures CountOk(s', y) { assert CountOk(s, y); }
    forall u | 0 <= u < |s'.threads| ensures ThreadOk(s', u, s'.threads[u]) { assert ThreadOk(s, u, s.threads[u]); }
    forall u | 0 <= u < |s'.threads| ensures NodeOk(s', s'.threads[u]) { assert NodeOk(s, s.threads[u]); }
    ListAfter(s, s', x);
  }

  lemma StoreNextKeepsInv(s: State, s': State, t: nat)
    requires Inv(s) && Enabled(s, StoreNext(t))
    requires s' == Linking(s, t)
    ensures Inv(s')
  {
    var th := s.threads[t];
    Facts(s, t);
    RefsFit(s, th.node);
    var x := th.node;
    assert s.refs[x := s.refs[x]] == s.refs && s.phase[x := s.phase[x]] == s.phase;
    NodeStep(s, s', t, x, s.refs[x], th.seen, s.phase[x], AddPublish(x, th.seen, th.k));
  }

  lemma StoreOneKeepsInv(s: State, s': State, t: nat)
    requires Inv(s) && Enabled(s, StoreOne(t))
    requires s' == Offering(s, t)
    ensures Inv(s')
  {
    var th := s.threads[t];
    Facts(s, t);
    RefsFit(s, th.node);
    CountStep(s, s', t, th.node, 1, Offered(t), AddCas(th.node, th.seen, th.k));
  }

  lemma RetractCount(s: State, t: nat, x: nat, th: Thread)
    requires Inv(s) && t < |s.threads| && x < |s.refs| && s.phase[x] == Offered(t)
    requires Held(s.threads[t]).None? && Held(th).None?
    ensures CountFits(s.refs[x] + SHOULD_BE_ON_FREELIST - 1, if s.refs[x] == 1 then Adding(t) else Orphan,
                      HoldersThen(s, t, th, x))
  {
    RefsFit(s, x);
  }

  /** Where a thread goes after adding, it holds nothing and answers for nothing. */
  lemma ResumeOk(s: State, k: Then, t: nat)
    requires ThenOk(s, k)
    ensures NodeOk(s, Resume(k)) && Held(Resume(k)).None? && !InCharge(Resume(k))
    ensures |s.next| == |s.phase| ==> ThreadOk(s, t, Resume(k))
  {
  }

  lemma RetractAgain(s: State, s': State, t: nat)
    requires Inv(s) && Enabled(s, Retract(t)) && s.refs[s.threads[t].node] == 1
    requires s' == Retracted(s, t)
    ensures Inv(s')
  {
    var th := s.threads[t];
    Facts(s, t);
    RetractCount(s, t, th.node, AddLink(th.node, th.seen, th.k));
    CountStep(s, s', t, th.node, s.refs[th.node] + SHOULD_BE_ON_FREELIST - 1, Adding(t), AddLink(th.node, th.seen, th.k));
  }

  lemma RetractAway(s: State, s': State, t: nat)
    requires Inv(s) && Enabled(s, Retract(t)) && s.refs[s.threads[t].node] != 1
    requires s' == Retracted(s, t)
    ensures Inv(s')
  {
    var x, k := s.threads[t].node, s.threads[t].k;
    Facts(s, t);
    ResumeOk(s, k, t);
    RetractCount(s, t, x, Resume(k));
    var r := s.refs[x] + SHOULD_BE_ON_FREELIST - 1;
    ResumeOk(s', k, t);
    CountStep(s, s', t, x, r, Orphan, Resume(k));
  }

  lemma RetractKeepsInv(s: State, s': State, t: nat)
    requires Inv(s) && Enabled(s, Retract(t))
    requires s' == Retracted(s, t)
    ensures Inv(s')
  {
    if s.refs[s.threads[t].node] == 1 { RetractAgain(s, s', t); } else { RetractAway(s, s', t); }
  }

  lemma FinishCount(s: State, t: nat, x: nat)
    requires Inv(s) && t < |s.threads| && x < |s.refs| && s.threads[t] == GetTaken(x) && s.phase[x] == Taken(t)
    ensures CountFits(s.refs[x] - 2, Owned(t), HoldersThen(s, t, Idle, x))
  {
    RefsFit(s, x);
  }

  lemma FinishKeepsInv(s: State, s': State, t: nat)
    requires Inv(s) && Enabled(s, Finish(t))
    requires s' == Finished(s, t)
    ensures Inv(s')
  {
    var th := s.threads[t];
    Facts(s, t);
    FinishCount(s, t, th.node);
    CountStep(s, s', t, th.node, s.refs[th.node] - 2, Owned(t), Idle);
  }

  /** Taking or dropping a reference, whatever the node's phase. */
  lemma RefStep(s: State, s': State, t: nat, x: nat, r: int, th: Thread)
    requires Inv(s) && t < |s.threads| && x < |s.refs| && NodeOk(s, th) && ThreadOk(s, t, th)
    requires !InCharge(s.threads[t]) && !InCharge(th)
    requires HoldsOnly(th, x) && HoldsOnly(s.threads[t], x)
    requires CountFits(r, s.phase[x], HoldersThen(s, t, th, x))
    requires s' == Go(SetRefs(s, x, r), t, th)
    ensures Inv(s')
  {
    HoldersUpdate(s, s', t, th, x);
    CountsAfter(s, s', t, x, th);
    ThreadsAfter(s, s', t, x, th);
    assert Responsible(s.threads, s.phase[x], x);
    PhasesAfter(s, s', t, x, th);
    TypedAfter(s, s', t, th);
  }

  lemma AcquireCount(s: State, t: nat, x: nat, r: int)
    requires Inv(s) && t < |s.threads| && x < |s.refs| && s.threads[t] == GetAcquire(x, r)
    requires r % SHOULD_BE_ON_FREELIST != 0 && s.refs[x] == r
    ensures CountFits(r + 1, s.phase[x], HoldersThen(s, t, GetNext(x), x))
  {
    RefsFit(s, x);
  }

  lemma AcquireSucceeds(s: State, s': State, t: nat)
    requires Inv(s) && Enabled(s, AcquireCas(t))
    requires s.threads[t].refs % SHOULD_BE_ON_FREELIST != 0 && s.refs[s.threads[t].node] == s.threads[t].refs
    requires s' == Acquired(s, t)
    ensures Inv(s')
  {
    var x, r := s.threads[t].node, s.threads[t].refs;
    AcquireCount(s, t, x, r);
    RefStep(s, s', t, x, r + 1, GetNext(x));
  }

  lemma AcquireKeepsInv(s: State, s': State, t: nat)
    requires Inv(s) && Enabled(s, AcquireCas(t))
    requires s' == Acquired(s, t)
    ensures Inv(s')
  {
    if s.threads[t].refs % SHOULD_BE_ON_FREELIST == 0 || s.refs[s.threads[t].node] != s.threads[t].refs {
      ThreadStep(s, s', t, GetReload);
    } else {
      AcquireSucceeds(s, s', t);
    }
  }

  /** The last reference to an orphan is recognisable from the word alone. */
  lemma DropCount(s: State, t: nat, x: nat, th: Thread)
    requires Inv(s) && t < |s.threads| && x < |s.refs| && s.threads[t].GetDrop? && s.threads[t].node == x
    requires Held(th).None?
    ensures s.refs[x] == SHOULD_BE_ON_FREELIST + 1 <==> s.phase[x].Orphan? && HoldersThen(s, t, th, x) == 0
    ensures s.refs[x] == SHOULD_BE_ON_FREELIST + 1 ==> CountFits(s.refs[x] - 1, Adding(t), HoldersThen(s, t, th, x))
    ensures s.refs[x] != SHOULD_BE_ON_FREELIST + 1 ==> CountFits(s.refs[x] - 1, s.phase[x], HoldersThen(s, t, th, x))
  {
    RefsFit(s, x);
    SumAtLeast(s.threads, t, Hold(x));
  }

  lemma DropLast(s: State, s': State, t: nat)
    requires Inv(s) && Enabled(s, Drop(t)) && s.refs[s.threads[t].node] == SHOULD_BE_ON_FREELIST + 1
    requires s' == Dropped(s, t)
    ensures Inv(s')
  {
    var x, seen := s.threads[t].node, s.threads[t].seen;
    Facts(s, t);
    DropCount(s, t, x, AddStart(x, Retry(seen)));
    CountStep(s, s', t, x, s.refs[x] - 1, Adding(t), AddStart(x, Retry(seen)));
  }

  lemma DropOther(s: State, s': State, t: nat)
    requires Inv(s) && Enabled(s, Drop(t)) && s.refs[s.threads[t].node] != SHOULD_BE_ON_FREELIST + 1
    requires s' == Dropped(s, t)
    ensures Inv(s')
  {
    var x, seen := s.threads[t].node, s.threads[t].seen;
    Facts(s, t);
    DropCount(s, t, x, Loop(seen));
    RefStep(s, s', t, x, s.refs[x] - 1, Loop(seen));
  }

  lemma DropKeepsInv(s: State, s': State, t: nat)
    requires Inv(s) && Enabled(s, Drop(t))
    requires s' == Dropped(s, t)
    ensures Inv(s')
  {
    if s.refs[s.threads[t].node] == SHOULD_BE_ON_FREELIST + 1 { DropLast(s, s', t); } else { DropOther(s, s', t); }
  }

  lemma PushedLinks(next: seq<Option<nat>>, list: seq<nat>, x: nat)
    requires Linked(next, list) && Distinct(list) && x < |next| && x !in list
    requires next[x] == if list == [] then None else Some(list[0])
    ensures Linked(next, [x] + list) && Distinct([x] + list)
  {
  }

  lemma PushedExactly(phase: seq<Phase>, list: seq<nat>, x: nat)
    requires ListsExactly(phase, list) && x < |phase|
    ensures ListsExactly(phase[x := Listed], [x] + list)
  {
    forall y | 0 <= y < |phase| && phase[x := Listed][y].Listed? ensures y in [x] + list {
      if y == x { assert ([x] + list)[0] == x; } else { assert y in list; }
    }
  }

  /** A node and its thread change together, the counts being right already. */
  lemma SwitchPhase(s: State, s': State, t: nat, x: nat, p: Phase, th: Thread)
    requires Inv(s) && t < |s.threads| && x < |s.refs| && NodeOk(s, th)
    requires s'.refs == s.refs && s'.next == s.next && s'.threads == s.threads[t := th] && s'.phase == s.phase[x := p]
    requires SeenOk(s, s'.head) && ListOk(s')
    requires Held(th) == Held(s.threads[t]) && Flag(p) == Flag(s.phase[x]) == 0 && ListRef(p) == ListRef(s.phase[x])
    requires FreeFor(s.phase[x], t) || s.phase[x].Listed?
    requires InCharge(s.threads[t]) ==> s.threads[t].node == x
    requires ThreadOk(s', t, th) && Responsible(s'.threads, p, x)
    ensures Inv(s')
  {
    assert CountOk(s, x);
    HoldersUpdate(s, s', t, th, x);
    CountsAfter(s, s', t, x, th);
    ThreadsAfter(s, s', t, x, th);
    PhasesAfter(s, s', t, x, th);
    TypedAfter(s, s', t, th);
  }

  lemma PushSucceeds(s: State, s': State, t: nat, x: nat, k: Then)
    requires Inv(s) && t < |s.threads| && x < |s.refs| && s.threads[t] == AddCas(x, s.head, k) && ThenOk(s, k)
    requires s' == Go(SetPhase(s, x, Listed).(head := Some(x), list := [x] + s.list), t, Resume(k))
    ensures Inv(s')
  {
    Facts(s, t);
    assert x !in s.list;
    PushedLinks(s.next, s.list, x);
    PushedExactly(s.phase, s.list, x);
    ResumeOk(s, k, t);
    ResumeOk(s', k, t);
    SwitchPhase(s, s', t, x, Listed, Resume(k));
  }

  lemma PushKeepsInv(s: State, s': State, t: nat)
    requires Inv(s) && Enabled(s, PushCas(t))
    requires s' == Pushed(s, t)
    ensures Inv(s')
  {
    Facts(s, t);
    if s.head == s.threads[t].seen {
      PushSucceeds(s, s', t, s.threads[t].node, s.threads[t].k);
    } else {
      ThreadStep(s, s', t, AddRetract(s.threads[t].node, s.head, s.threads[t].k));
    }
  }

  lemma PoppedLinks(next: seq<Option<nat>>, list: seq<nat>)
    requires Linked(next, list) && Distinct(list) && list != []
    ensures Linked(next, list[1..]) && Distinct(list[1..]) && list[0] !in list[1..]
    ensures next[list[0]] == if list[1..] == [] then None else Some(list[1..][0])
  {
  }

  lemma PoppedExactly(phase: seq<Phase>, list: seq<nat>, p: Phase)
    requires ListsExactly(phase, list) && list != [] && list[0] !in list[1..] && !p.Listed?
    ensures ListsExactly(phase[list[0] := p], list[1..])
  {
    forall y | 0 <= y < |phase| && phase[list[0] := p][y].Listed? ensures y in list[1..] {
      assert y in list;
    }
  }

  /** A reader that holds a reference has the current next pointer, so its pop unlinks exactly the head. */
  lemma PopSucceeds(s: State, s': State, t: nat, x: nat, n: Option<nat>)
    requires Inv(s) && t < |s.threads| && x < |s.refs| && s.threads[t] == GetCas(x, n) && s.head == Some(x)
    requires s' == Popped(s, t)
    ensures n == s.next[x] && s.list != [] && s.list[0] == x && s'.list == s.list[1..]
    ensures Inv(s')
  {
    Facts(s, t);
    PoppedLinks(s.next, s.list);
    PoppedExactly(s.phase, s.list, Taken(t));
    SwitchPhase(s, s', t, x, Taken(t), GetTaken(x));
  }

  lemma PopKeepsInv(s: State, s': State, t: nat)
    requires Inv(s) && Enabled(s, PopCas(t))
    requires s' == Popped(s, t)
    ensures Inv(s')
  {
    Facts(s, t);
    if s.head == Some(s.threads[t].node) {
      PopSucceeds(s, s', t, s.threads[t].node, s.threads[t].next);
    } else {
      ThreadStep(s, s', t, GetDrop(s.threads[t].node, s.head));
    }
  }

  // ---- runs ----

  lemma InitHasInv(s: State)
    requires Init(s)
    ensures Inv(s)
  {
    forall x | 0 <= x < |s.refs| ensures CountOk(s, x) {
      SumZero(s.threads, Hold(x));
    }
  }

  lemma StepKeepsInv(s: State, s': State)
    requires Inv(s) && Next(s, s')
    ensures Inv(s')
  {
    var a :| Enabled(s, a) && s' == Apply(s, a);
    ActionKeepsInv(s, s', a);
  }

  lemma ActionKeepsInv(s: State, s': State, a: Action)
    requires Inv(s) && Enabled(s, a)
    requires s' == Apply(s, a)
    ensures Inv(s')
  {
    match a
    case Add(t, x) => AddKeepsInv(s, s', t, x);
    case Transfer(x, t) => TransferKeepsInv(s, s', x, t);
    case StoreNext(t) => StoreNextKeepsInv(s, s', t);
    case StoreOne(t) => StoreOneKeepsInv(s, s', t);
    case PushCas(t) => PushKeepsInv(s, s', t);
    case Retract(t) => RetractKeepsInv(s, s', t);
    case AcquireCas(t) => AcquireKeepsInv(s, s', t);
    case PopCas(t) => PopKeepsInv(s, s', t);
    case Finish(t) => FinishKeepsInv(s, s', t);
    case Drop(t) => DropKeepsInv(s, s', t);
    case _ => LoadKeepsInv(s, s', a);
  }

  lemma LoadKeepsInv(s: State, s': State, a: Action)
    requires Inv(s) && Enabled(s, a) && (a.LoadHead? || a.TryGet? || a.LoadRefs? || a.LoadNext?)
    requires s' == Apply(s, a)
    ensures Inv(s')
  {
    Facts(s, a.t);
    ThreadStep(s, s', a.t, Apply(s, a).threads[a.t]);
  }

  lemma {:induction false} RunKeepsInv(run: seq<State>, i: nat)
    requires Run(run) && i < |run|
    ensures Inv(run[i])
  {
    if i == 0 {
      InitHasInv(run[0]);
    } else {
      RunKeepsInv(run, i - 1);
      RunStep(run, i);
    }
  }

  lemma RunStep(run: seq<State>, i: nat)
    requires Run(run) && 0 < i < |run| && Inv(run[i - 1])
    ensures Inv(run[i])
  {
    StepKeepsInv(run[i - 1], run[i]);
  }

  /** The nodes met by following the pointers from the head, up to n of them. */
  function Walk(head: Option<nat>, next: seq<Option<nat>>, n: nat): seq<nat>
    decreases n
  {
    if n == 0 || head.None? || head.value >= |next| then []
    else [head.value] + Walk(next[head.value], next, n - 1)
  }

  lemma {:induction false} WalkIsList(next: seq<Option<nat>>, list: seq<nat>, n: nat)
    requires Linked(next, list) && |list| <= n
    ensures Walk(if list == [] then None else Some(list[0]), next, n) == list
    decreases n
  {
    if list != [] {
      assert |list| > 1 ==> next[list[0]] == Some(list[1]);
      WalkIsList(next, list[1..], n - 1);
      assert list == [list[0]] + list[1..];
    }
  }

  /** In every state of every run the pointers from the head spell out a list without repetition whose
      nodes are off everybody's hands; the walk ends, and no node is on the list twice. */
  lemma NeverListedTwice(run: seq<State>, i: nat, n: nat)
    requires Run(run) && i < |run| && n >= |run[i].list|
    ensures Walk(run[i].head, run[i].next, n) == run[i].list && Distinct(run[i].list)
    ensures forall x | x in run[i].list :: x < |run[i].phase| && run[i].phase[x] == Listed
  {
    RunKeepsInv(run, i);
    WalkIsList(run[i].next, run[i].list, n);
  }

  /** The word of a node never overflows 32 bits, and its top bit tells exactly the nodes that are
      waiting to be added. */
  lemma RefsNeverWrap(run: seq<State>, i: nat, x: nat)
    requires Run(run) && i < |run| && x < |run[i].refs|
    ensures x < |run[i].phase| && 0 <= run[i].refs[x] < WORD32
    ensures run[i].refs[x] >= SHOULD_BE_ON_FREELIST <==> run[i].phase[x].Orphan? || run[i].phase[x].Adding?
  {
    RunKeepsInv(run, i);
    RefsFit(run[i], x);
  }

  /** A successful pop installs the node that currently follows the head (no ABA), and takes a listed
      node off the list with its should-be-on-freelist bit clear. */
  lemma PopTakesTheHead(run: seq<State>, i: nat, t: nat)
    requires Run(run) && i < |run| && Typed(run[i]) && Enabled(run[i], PopCas(t))
    requires run[i].head == Some(run[i].threads[t].node)
    ensures var s := run[i];
            var s' := Apply(s, PopCas(t));
            var x := s.threads[t].node;
            && s.threads[t].next == s.next[x]
            && s.list == [x] + s'.list && x !in s'.list && s'.head == s.next[x]
            && s'.refs[x] < SHOULD_BE_ON_FREELIST
  {
    RunKeepsInv(run, i);
    PopIsExact(run[i], Popped(run[i], t), t, run[i].threads[t].node);
  }

  lemma PopIsExact(s: State, s': State, t: nat, x: nat)
    requires Inv(s) && Enabled(s, PopCas(t)) && x == s.threads[t].node && s.head == Some(x)
    requires s' == Popped(s, t)
    ensures x < |s.next| == |s'.refs| && s.threads[t].next == s.next[x]
    ensures s.list == [x] + s'.list && x !in s'.list && s'.head == s.next[x]
    ensures s'.refs[x] < SHOULD_BE_ON_FREELIST
  {
    Facts(s, t);
    RefsFit(s, x);
    assert s.list != [] && s.list[0] == x && s'.list == s.list[1..];
    assert s.phase[x] == Listed;
  }

  /** A node that has been handed out stays off the list, whatever other threads do, until its owner
      adds it again: it cannot be returned twice. */
  lemma OwnedUntilAdded(s: State, a: Action, x: nat)
    requires Inv(s) && Enabled(s, a) && x < |s.phase| && s.phase[x].Owned?
    ensures x !in s.list && x < |Apply(s, a).phase|
    ensures Apply(s, a).phase[x].Owned? <==> !(a.Add? && a.x == x)
    ensures x !in Apply(s, a).list
  {
    RefsFit(s, x);
    if a.Add? {
      assert s.phase[a.x] == Owned(a.t);
    } else if !a.Transfer? {
      Facts(s, a.t);
      OwnedStays(s, a, x);
      OwnedOffList(s, a, x);
    }
  }

  /** Some thread adds node x in this step. */
  ghost predicate AddsNode(s: State, s': State, x: nat) {
    Typed(s) && exists t :: Enabled(s, Add(t, x)) && s' == Apply(s, Add(t, x))
  }

  lemma OwnedAcrossStep(s: State, s': State, x: nat)
    requires Inv(s) && Next(s, s') && x < |s.phase| && s.phase[x].Owned? && !AddsNode(s, s', x)
    ensures x < |s'.phase| && s'.phase[x].Owned? && x !in s'.list
  {
    var a :| Enabled(s, a) && s' == Apply(s, a);
    OwnedUntilAdded(s, a, x);
  }

  lemma OwnedAcrossStepOfRun(run: seq<State>, j: nat, x: nat)
    requires Run(run) && 0 < j < |run| && x < |run[j - 1].phase| && run[j - 1].phase[x].Owned?
    requires !AddsNode(run[j - 1], run[j], x)
    ensures x < |run[j].phase| && run[j].phase[x].Owned? && x !in run[j].list
  {
    RunKeepsInv(run, j - 1);
    OwnedAcrossStep(run[j - 1], run[j], x);
  }

  /** From a state of a run where a node is owned to any later one it stays owned and off the list, unless it is added
      in between: it is not handed out twice. */
  lemma {:induction false} HandedOutOnce(run: seq<State>, i: nat, j: nat, x: nat)
    requires Run(run) && i <= j < |run| && x < |run[i].phase| && run[i].phase[x].Owned?
    requires forall k, m | i <= k < m <= j && m == k + 1 :: !AddsNode(run[k], run[m], x)
    ensures x < |run[j].phase| && run[j].phase[x].Owned? && x !in run[j].list
    decreases j
  {
    if i == j {
      RunKeepsInv(run, i);
    } else {
      HandedOutOnce(run, i, j - 1, x);
      OwnedAcrossStepOfRun(run, j, x);
    }
  }

  lemma OwnedStays(s: State, a: Action, x: nat)
    requires Typed(s) && Enabled(s, a) && !a.Add? && !a.Transfer? && x < |s.phase| && s.phase[x].Owned?
    requires ThreadOk(s, a.t, s.threads[a.t]) && s.refs[x] < SHOULD_BE_ON_FREELIST && s.head != Some(x)
    ensures |Apply(s, a).phase| == |s.phase| && Apply(s, a).phase[x].Owned?
  {
    assert NodeOk(s, s.threads[a.t]);
  }

  lemma OwnedOffList(s: State, a: Action, x: nat)
    requires Typed(s) && Enabled(s, a) && !a.Add? && !a.Transfer? && x < |s.phase| && s.phase[x].Owned?
    requires ThreadOk(s, a.t, s.threads[a.t]) && x !in s.list
    ensures x !in Apply(s, a).list
  {
    assert NodeOk(s, s.threads[a.t]);
  }

  /** With no thread at work no node is lost: it is owned, with count 0, or listed, with count 1. */
  lemma QuiescentNodes(run: seq<State>, i: nat, x: nat)
    requires Run(run) && i < |run| && x < |run[i].refs|
    requires forall t | 0 <= t < |run[i].threads| :: run[i].threads[t].Idle?
    ensures x < |run[i].phase|
    ensures (run[i].phase[x].Owned? && run[i].refs[x] == 0 && x !in run[i].list)
         || (run[i].phase[x].Listed? && run[i].refs[x] == 1 && x in run[i].list)
  {
    var s := run[i];
    RunKeepsInv(run, i);
    assert CountOk(s, x) && Responsible(s.threads, s.phase[x], x);
    SumZero(s.threads, Hold(x));
  }
}
