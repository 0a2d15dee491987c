/**
  The segment-lock protocol of omp_hash_map.h, for any number of threads and segments: operations on one
  key lock the segment of its bucket and re-check the bucket count, growth takes every lock in order.
  Every access to shared data that another thread can interleave with is one step: reading the bucket, writing
  it and counting the key are three.  The parallel loop of the rehash moves one node a step.
 */
module SegmentLocks {
  import opened Wrappers
  import opened Counting
  import opened OmpHashMap

  type Chain = seq<Node<nat, nat>>

  datatype Op = Set(key: nat, value: nat) | Unset(key: nat) | Get(key: nat)

  datatype Thread =
    | Idle(result: Option<nat>)
    // hash_node_apply for one key
    | Snapshot(op: Op)
    | Lock(op: Op, snap: nat)
    | Recheck(op: Op, snap: nat)
    | Retry(op: Op, snap: nat)
    | Read(op: Op, snap: nat)
    | Write(op: Op, snap: nat, seen: Chain)
    | Count(op: Op, snap: nat, added: int, result: Option<nat>)
    | Unlock(op: Op, snap: nat, result: Option<nat>)
    // rehash; `left` and `moved` are bookkeeping
    | LockAll(n: nat, k: nat)
    | Decide(n: nat)
    | Move(n: nat, grown: seq<Chain>, left: map<nat, nat>, moved: map<nat, nat>)
    | PublishCount(n: nat)
    | UnlockAll(k: nat)

  /** `contents` is the abstract map; it changes when an operation on a key takes effect. */
  datatype State = State(hash: nat -> nat, locks: seq<Option<nat>>, nBuckets: nat, buckets: seq<Chain>,
                         nKeys: int, threads: seq<Thread>, contents: map<nat, nat>)

  datatype Action =
    | Begin(t: nat, op: Op)
    | Grow(t: nat, n: nat)
    | Step(t: nat)
    | MoveNode(t: nat, b: nat)

  function BucketOf(s: State, op: Op, snap: nat): nat
    requires snap > 0
  {
    Home(s.hash, snap)(op.key)
  }

  function SegmentOf(s: State, op: Op, snap: nat): (j: nat)
    requires snap > 0 && |s.locks| > 0
    ensures j < |s.locks|
  {
    BucketOf(s, op, snap) % |s.locks|
  }

  /** What an operation does to its bucket's chain. */
  function Edit(chain: Chain, op: Op): Chain {
    var i := Find(chain, op.key);
    match op
    case Set(k, v) => if i == |chain| then chain + [Node(k, v)] else chain[i := Node(k, v)]
    case Unset(_) => if i == |chain| then chain else chain[..i] + chain[i + 1..]
    case Get(_) => chain
  }

  function KeysAdded(chain: Chain, op: Op): int {
    var found := Find(chain, op.key) < |chain|;
    if op.Set? && !found then 1 else if op.Unset? && found then 0 - 1 else 0
  }

  function Outcome(chain: Chain, op: Op): Option<nat> {
    var i := Find(chain, op.key);
    if op.Get? && i < |chain| then Some(chain[i].value) else None
  }

  /** What an operation does to the map, and answers. */
  function Effect(m: map<nat, nat>, op: Op): map<nat, nat> {
    match op
    case Set(k, v) => m[k := v]
    case Unset(k) => Without(m, k)
    case Get(_) => m
  }

  function Answer(m: map<nat, nat>, op: Op): Option<nat> {
    if op.Get? && op.key in m then Some(m[op.key]) else None
  }

  predicate PointOk(s: State, th: Thread) {
    match th
    case Lock(_, snap) => snap > 0
    case Recheck(_, snap) => snap > 0
    case Retry(_, snap) => snap > 0
    case Read(_, snap) => snap > 0
    case Write(op, snap, _) => snap > 0
    case Count(_, snap, added, _) => snap > 0 && (added == 1 || added == 0 - 1)
    case Unlock(_, snap, _) => snap > 0
    case LockAll(n, k) => n > 0 && k <= |s.locks|
    case Decide(n) => n > 0
    case Move(n, grown, _, _) => n > 0 && |grown| == n
    case PublishCount(n) => n > 0
    case UnlockAll(k) => k <= |s.locks|
    case _ => true
  }

  predicate Typed(s: State) {
    && |s.locks| > 0 && s.nBuckets > 0
    && forall t | 0 <= t < |s.threads| :: PointOk(s, s.threads[t])
  }

  predicate Init(s: State) {
    && Typed(s) && s.nBuckets == N_INITIAL_BUCKETS && s.buckets == Empty(N_INITIAL_BUCKETS)
    && s.nKeys == 0 && s.contents == map[]
    && (forall j | 0 <= j < |s.locks| :: s.locks[j] == None)
    && (forall t | 0 <= t < |s.threads| :: s.threads[t].Idle?)
  }

  /** The lock a thread is waiting for. */
  predicate Blocked(s: State, th: Thread)
    requires |s.locks| > 0 && PointOk(s, th)
  {
    match th
    case Lock(op, snap) => s.locks[SegmentOf(s, op, snap)].Some?
    case LockAll(_, k) => k < |s.locks| && s.locks[k].Some?
    case _ => false
  }

  predicate Enabled(s: State, a: Action)
    requires Typed(s)
  {
    && a.t < |s.threads|
    && var th := s.threads[a.t];
      match a
      case Begin(_, _) => th.Idle?
      case Grow(_, n) => th.Idle? && n > 0
      case Step(_) => !th.Idle? && !Blocked(s, th) && (th.Move? ==> forall b | 0 <= b < |s.buckets| :: |s.buckets[b]| == 0)
                   && (th.Read? || th.Write? ==> BucketOf(s, th.op, th.snap) < |s.buckets|)
      case MoveNode(_, b) => th.Move? && b < |s.buckets| && |s.buckets[b]| > 0
  }

  function Go(s: State, t: nat, th: Thread): State
    requires t < |s.threads|
  {
    s.(threads := s.threads[t := th])
  }

  function SetLock(s: State, j: nat, holder: Option<nat>): State
    requires j < |s.locks|
  {
    s.(locks := s.locks[j := holder])
  }

  function Written(s: State, t: nat): State
    requires Typed(s) && Enabled(s, Step(t)) && s.threads[t].Write?
  {
    var th := s.threads[t];
    assert PointOk(s, th);
    var b, added, result := BucketOf(s, th.op, th.snap), KeysAdded(th.seen, th.op), Outcome(th.seen, th.op);
    Go(s.(buckets := s.buckets[b := Edit(th.seen, th.op)], contents := Effect(s.contents, th.op)),
       t, if added == 0 then Unlock(th.op, th.snap, result) else Count(th.op, th.snap, added, result))
  }

  function Decided(s: State, t: nat): State
    requires t < |s.threads| && s.threads[t].Decide?
  {
    var n := s.threads[t].n;
    Go(s, t, if s.nBuckets >= n then UnlockAll(0) else Move(n, Empty(n), s.contents, map[]))
  }

  /** The last node of bucket b goes to the end of its chain in the new table. */
  function NodeMoved(s: State, t: nat, b: nat): State
    requires Typed(s) && Enabled(s, MoveNode(t, b))
  {
    var th := s.threads[t];
    assert PointOk(s, th);
    var node := s.buckets[b][|s.buckets[b]| - 1];
    var c := Home(s.hash, th.n)(node.key);
    var grown := th.grown[c := th.grown[c][..Find(th.grown[c], node.key)] + [node]];
    Go(s.(buckets := s.buckets[b := s.buckets[b][..|s.buckets[b]| - 1]]), t,
       Move(th.n, grown, Without(th.left, node.key), th.moved[node.key := node.value]))
  }

  function Stepped(s: State, t: nat): State
    requires Typed(s) && Enabled(s, Step(t))
  {
    var th := s.threads[t];
    assert PointOk(s, th);
    match th
    case Idle(_) => s
    case Snapshot(op) => Go(s, t, Lock(op, s.nBuckets))
    case Lock(op, snap) => Go(SetLock(s, SegmentOf(s, op, snap), Some(t)), t, Recheck(op, snap))
    case Recheck(op, snap) => Go(s, t, if snap != s.nBuckets then Retry(op, snap) else Read(op, snap))
    case Retry(op, snap) => Go(SetLock(s, SegmentOf(s, op, snap), None), t, Snapshot(op))
    case Read(op, snap) => Go(s, t, Write(op, snap, s.buckets[BucketOf(s, op, snap)]))
    case Write(_, _, _) => Written(s, t)
    case Count(op, snap, added, result) => Go(s.(nKeys := s.nKeys + added), t, Unlock(op, snap, result))
    case Unlock(op, snap, result) => Go(SetLock(s, SegmentOf(s, op, snap), None), t, Idle(result))
    case LockAll(n, k) =>
      if k < |s.locks| then Go(SetLock(s, k, Some(t)), t, LockAll(n, k + 1)) else Go(s, t, Decide(n))
    case Decide(_) => Decided(s, t)
    case Move(n, grown, _, _) => Go(s.(buckets := grown), t, PublishCount(n))
    case PublishCount(n) => Go(s.(nBuckets := n), t, UnlockAll(0))
    case UnlockAll(k) =>
      if k < |s.locks| then Go(SetLock(s, k, None), t, UnlockAll(k + 1)) else Go(s, t, Idle(None))
  }

  function Apply(s: State, a: Action): State
    requires Typed(s) && Enabled(s, a)
  {
    match a
    case Begin(t, op) => Go(s, t, Snapshot(op))
    case Grow(t, n) => Go(s, t, LockAll(n, 0))
    case Step(t) => Stepped(s, t)
    case MoveNode(t, b) => NodeMoved(s, t, b)
  }

  ghost predicate Next(s: State, s': State) {
    Typed(s) && exists a :: Enabled(s, a) && s' == Apply(s, a)
  }

  ghost predicate Run(run: seq<State>) {
    && |run| > 0 && Init(run[0])
    && forall i, j | 0 <= i < j < |run| && j == i + 1 :: Next(run[i], run[j])
  }

  // ---- the invariant ----

  /** The locks a thread holds at its program point. */
  predicate HoldsLock(s: State, th: Thread, j: nat)
    requires |s.locks| > 0 && PointOk(s, th)
  {
    match th
    case Recheck(op, snap) => j == SegmentOf(s, op, snap)
    case Retry(op, snap) => j == SegmentOf(s, op, snap)
    case Read(op, snap) => j == SegmentOf(s, op, snap)
    case Write(op, snap, _) => j == SegmentOf(s, op, snap)
    case Count(op, snap, _, _) => j == SegmentOf(s, op, snap)
    case Unlock(op, snap, _) => j == SegmentOf(s, op, snap)
    case LockAll(_, k) => j < k
    case Decide(_) => true
    case Move(_, _, _, _) => true
    case PublishCount(_) => true
    case UnlockAll(k) => j >= k
    case _ => false
  }

  ghost predicate LocksOk(s: State)
    requires Typed(s)
  {
    forall t, j | 0 <= t < |s.threads| && 0 <= j < |s.locks| ::
      (s.locks[j] == Some(t) <==> HoldsLock(s, s.threads[t], j))
  }

  ghost predicate HoldersExist(s: State) {
    forall j | 0 <= j < |s.locks| && s.locks[j].Some? :: s.locks[j].value < |s.threads|
  }

  predicate Rebuilding(th: Thread) { th.Move? || th.PublishCount? }

  /** An operation past the re-check has an up-to-date bucket count and a true copy of its bucket. */
  ghost predicate OpOk(s: State, th: Thread) {
    match th
    case Read(op, snap) => snap == s.nBuckets
    case Write(op, snap, seen) =>
      snap == s.nBuckets > 0 && BucketOf(s, op, snap) < |s.buckets| && seen == s.buckets[BucketOf(s, op, snap)]
    case Count(op, snap, added, _) => snap == s.nBuckets && (added > 0 ==> op.key in s.contents)
    case _ => true
  }

  ghost predicate OpsOk(s: State) { forall t | 0 <= t < |s.threads| :: OpOk(s, s.threads[t]) }

  /** The table refines the map, except while a thread with every lock is rebuilding it. */
  ghost predicate Settled(s: State)
    requires s.nBuckets > 0
  {
    |s.buckets| == s.nBuckets && Represents(s.buckets, Home(s.hash, s.nBuckets), s.contents)
  }

  ghost predicate Halfway(s: State, th: Thread)
    requires s.nBuckets > 0
  {
    match th
    case Move(n, grown, left, moved) =>
      && n > 0 && |grown| == n && |s.buckets| == s.nBuckets < n && Splits(s.contents, left, moved)
      && Represents(s.buckets, Home(s.hash, s.nBuckets), left) && Represents(grown, Home(s.hash, n), moved)
    case PublishCount(n) =>
      && n > s.nBuckets && |s.buckets| == n && Represents(s.buckets, Home(s.hash, n), s.contents)
    case _ => true
  }

  ghost predicate TableOk(s: State)
    requires s.nBuckets > 0
  {
    && ((forall t | 0 <= t < |s.threads| :: !Rebuilding(s.threads[t])) ==> Settled(s))
    && (forall t | 0 <= t < |s.threads| && Rebuilding(s.threads[t]) :: Halfway(s, s.threads[t]))
  }

  /** Keys put in or taken out but not yet counted. */
  function Adds(th: Thread): nat { if th.Count? && th.added > 0 then 1 else 0 }
  function Removes(th: Thread): nat { if th.Count? && th.added <= 0 then 1 else 0 }

  ghost predicate Counted(s: State) {
    s.nKeys + Sum(s.threads, Adds) - Sum(s.threads, Removes) == |s.contents|
  }

  ghost predicate Inv(s: State) {
    Typed(s) && HoldersExist(s) && LocksOk(s) && OpsOk(s) && TableOk(s) && Counted(s)
  }

  // ---- locks ----

  lemma OneHolder(s: State, t: nat, u: nat, j: nat)
    requires Typed(s) && LocksOk(s) && t < |s.threads| && u < |s.threads| && j < |s.locks|
    requires HoldsLock(s, s.threads[t], j) && HoldsLock(s, s.threads[u], j)
    ensures t == u
  {
    assert s.locks[j] == Some(t) && s.locks[j] == Some(u);
  }

  predicate HoldsAll(th: Thread) { Rebuilding(th) || th.Decide? }
  predicate PastCheck(th: Thread) { th.Read? || th.Write? || th.Count? }

  /** A thread with every lock leaves no other past the re-check or rebuilding. */
  lemma AllExcludes(s: State, t: nat)
    requires Typed(s) && LocksOk(s) && t < |s.threads| && HoldsAll(s.threads[t])
    ensures forall u | 0 <= u < |s.threads| && u != t :: !HoldsAll(s.threads[u]) && !PastCheck(s.threads[u])
  {
    forall u | 0 <= u < |s.threads| && (HoldsAll(s.threads[u]) || PastCheck(s.threads[u])) ensures u == t {
      var th := s.threads[u];
      assert PointOk(s, th);
      OneHolder(s, t, u, if PastCheck(th) then SegmentOf(s, th.op, th.snap) else 0);
    }
  }

  lemma NoRebuilder(s: State, t: nat)
    requires Typed(s) && LocksOk(s) && t < |s.threads| && PastCheck(s.threads[t])
    ensures forall u | 0 <= u < |s.threads| :: !Rebuilding(s.threads[u])
  {
    forall u | 0 <= u < |s.threads| ensures !Rebuilding(s.threads[u]) {
      if Rebuilding(s.threads[u]) {
        AllExcludes(s, u);
      }
    }
  }

  /** The thread's locks as its program point has them, and the others' as before. */
  ghost predicate LocksMove(s: State, s': State, t: nat)
    requires Typed(s) && Typed(s') && |s.locks| == |s'.locks| && |s.threads| == |s'.threads| && t < |s.threads|
  {
    && s'.hash == s.hash
    && (forall u | 0 <= u < |s.threads| && u != t :: s'.threads[u] == s.threads[u])
    && (forall j | 0 <= j < |s.locks| :: s'.locks[j] == s.locks[j]
         || (s.locks[j] == None && s'.locks[j] == Some(t)) || (s.locks[j] == Some(t) && s'.locks[j] == None))
    && (forall j | 0 <= j < |s.locks| :: (s'.locks[j] == Some(t) <==> HoldsLock(s', s'.threads[t], j)))
  }

  lemma LocksAfter(s: State, s': State, t: nat)
    requires Typed(s) && Typed(s') && |s.locks| == |s'.locks| && |s.threads| == |s'.threads| && t < |s.threads|
    requires LocksOk(s) && HoldersExist(s) && LocksMove(s, s', t)
    ensures LocksOk(s') && HoldersExist(s')
  {
    forall u, j | 0 <= u < |s'.threads| && 0 <= j < |s'.locks|
      ensures s'.locks[j] == Some(u) <==> HoldsLock(s', s'.threads[u], j)
    {
      if u != t {
        SameLocks(s, s', s.threads[u], j);
        assert s.locks[j] == Some(u) <==> HoldsLock(s, s.threads[u], j);
      }
    }
  }

  lemma SameLocks(s: State, s': State, th: Thread, j: nat)
    requires |s.locks| == |s'.locks| > 0 && s'.hash == s.hash && PointOk(s, th) && PointOk(s', th)
    ensures HoldsLock(s, th, j) == HoldsLock(s', th, j)
  {
  }

  lemma TypedAfter(s: State, s': State, t: nat, th: Thread)
    requires Typed(s) && t < |s.threads| && s'.threads == s.threads[t := th] && PointOk(s, th)
    requires |s'.locks| == |s.locks| && s'.nBuckets > 0
    ensures Typed(s')
  {
    forall u | 0 <= u < |s'.threads| ensures PointOk(s', s'.threads[u]) {
      assert u != t ==> PointOk(s, s.threads[u]);
    }
  }

  // ---- steps ----

  /** Steps that touch neither the table nor the bucket count. */
  lemma QuietStep(s: State, s': State, t: nat, th: Thread)
    requires Inv(s) && t < |s.threads| && PointOk(s, th) && OpOk(s, th)
    requires s' == s.(threads := s.threads[t := th], locks := s'.locks, nKeys := s'.nKeys) && |s'.locks| == |s.locks|
    requires !Rebuilding(s.threads[t]) && !Rebuilding(th)
    requires s'.nKeys == s.nKeys + Uncounted(s.threads[t]) - Uncounted(th)
    requires Typed(s') && LocksMove(s, s', t)
    ensures Inv(s')
  {
    LocksAfter(s, s', t);
    QuietTable(s, s', t, th);
    CountedAfter(s, s', t, th);
    forall u | 0 <= u < |s'.threads| ensures OpOk(s', s'.threads[u]) {
      assert u != t ==> OpOk(s, s.threads[u]);
    }
  }

  function Uncounted(th: Thread): int { Adds(th) as int - Removes(th) as int }

  lemma CountedAfter(s: State, s': State, t: nat, th: Thread)
    requires Counted(s) && t < |s.threads| && s'.threads == s.threads[t := th]
    requires s'.nKeys - s.nKeys + Uncounted(th) - Uncounted(s.threads[t]) == |s'.contents| - |s.contents|
    ensures Counted(s')
  {
    SumUpdate(s.threads, t, th, Adds);
    SumUpdate(s.threads, t, th, Removes);
  }

  lemma QuietTable(s: State, s': State, t: nat, th: Thread)
    requires s.nBuckets > 0 && TableOk(s) && t < |s.threads| && !Rebuilding(s.threads[t]) && !Rebuilding(th)
    requires s' == s.(threads := s.threads[t := th], locks := s'.locks, nKeys := s'.nKeys)
    ensures TableOk(s')
  {
    if forall u | 0 <= u < |s'.threads| :: !Rebuilding(s'.threads[u]) {
      forall u | 0 <= u < |s.threads| ensures !Rebuilding(s.threads[u]) {
        assert u != t ==> s'.threads[u] == s.threads[u];
      }
      assert Settled(s);
    }
    forall u | 0 <= u < |s'.threads| && Rebuilding(s'.threads[u]) ensures Halfway(s', s'.threads[u]) {
      assert Halfway(s, s.threads[u]);
    }
  }

  lemma QuietKeepsInv(s: State, s': State, t: nat)
    requires Inv(s) && Enabled(s, Step(t)) && s' == Stepped(s, t)
    requires var th := s.threads[t]; !Rebuilding(th) && !th.Write? && (th.Decide? ==> s.nBuckets >= th.n)
    ensures Inv(s')
  {
    QuietShape(s, s', t);
    TypedAfter(s, s', t, s'.threads[t]);
    QuietLocks(s, s', t);
    QuietStep(s, s', t, s'.threads[t]);
  }

  lemma QuietShape(s: State, s': State, t: nat)
    requires Typed(s) && OpsOk(s) && Enabled(s, Step(t)) && s' == Stepped(s, t)
    requires var th := s.threads[t]; !Rebuilding(th) && !th.Write? && (th.Decide? ==> s.nBuckets >= th.n)
    ensures |s'.threads| == |s.threads| && |s'.locks| == |s.locks|
    ensures s' == s.(threads := s.threads[t := s'.threads[t]], locks := s'.locks, nKeys := s'.nKeys)
    ensures s'.nKeys == s.nKeys + Uncounted(s.threads[t]) - Uncounted(s'.threads[t])
    ensures PointOk(s, s'.threads[t]) && OpOk(s, s'.threads[t]) && !Rebuilding(s'.threads[t])
  {
    var th := s.threads[t];
    assert PointOk(s, th) && OpOk(s, th);
  }

  lemma QuietLocks(s: State, s': State, t: nat)
    requires Typed(s) && Enabled(s, Step(t)) && s' == Stepped(s, t) && Typed(s')
    requires var th := s.threads[t]; !Rebuilding(th) && !th.Write? && (th.Decide? ==> s.nBuckets >= th.n)
    requires forall j | 0 <= j < |s.locks| :: (s.locks[j] == Some(t) <==> HoldsLock(s, s.threads[t], j))
    ensures LocksMove(s, s', t)
  {
    assert PointOk(s, s.threads[t]);
  }

  lemma StartKeepsInv(s: State, s': State, a: Action)
    requires Inv(s) && Enabled(s, a) && (a.Begin? || a.Grow?) && s' == Apply(s, a)
    ensures Inv(s')
  {
    TypedAfter(s, s', a.t, s'.threads[a.t]);
    QuietStep(s, s', a.t, s'.threads[a.t]);
  }

  /** An edit of the key's own chain is the operation on the map. */
  lemma EditIsEffect(buckets: seq<Chain>, home: nat -> nat, m: map<nat, nat>, op: Op)
    requires Represents(buckets, home, m) && home(op.key) < |buckets|
    ensures Represents(buckets[home(op.key) := Edit(buckets[home(op.key)], op)], home, Effect(m, op))
    ensures |Effect(m, op)| == |m| + KeysAdded(buckets[home(op.key)], op)
    ensures Outcome(buckets[home(op.key)], op) == Answer(m, op)
  {
    var b := home(op.key);
    var chain := buckets[b];
    var i := Find(chain, op.key);
    FindIsLookup(buckets, home, m, op.key);
    match op
    case Set(k, v) =>
      SizeAfterPut(m, k, v);
      if i == |chain| {
        AppendRepresents(buckets, home, m, k, v);
      } else {
        UpdateRepresents(buckets, home, m, k, v);
      }
    case Unset(k) =>
      SizeAfterRemoval(m, k);
      if i < |chain| {
        RemoveRepresents(buckets, home, m, b, i);
      } else {
        assert buckets[b := chain] == buckets;
      }
    case Get(_) =>
      assert buckets[b := chain] == buckets;
  }

  /** Two operations past the re-check never work on the same bucket. */
  lemma BucketIsMine(s: State, t: nat, u: nat)
    requires Typed(s) && LocksOk(s) && OpsOk(s) && t < |s.threads| && u < |s.threads| && t != u
    requires PastCheck(s.threads[t]) && PastCheck(s.threads[u])
    ensures s.threads[t].snap == s.threads[u].snap == s.nBuckets
    ensures BucketOf(s, s.threads[t].op, s.nBuckets) != BucketOf(s, s.threads[u].op, s.nBuckets)
  {
    assert OpOk(s, s.threads[t]) && OpOk(s, s.threads[u]);
    assert PointOk(s, s.threads[t]) && PointOk(s, s.threads[u]);
    if BucketOf(s, s.threads[t].op, s.nBuckets) == BucketOf(s, s.threads[u].op, s.nBuckets) {
      OneHolder(s, t, u, SegmentOf(s, s.threads[t].op, s.nBuckets));
    }
  }

  lemma WriteOps(s: State, s': State, t: nat)
    requires Typed(s) && LocksOk(s) && OpsOk(s) && Enabled(s, Step(t)) && s.threads[t].Write? && s' == Written(s, t)
    requires OpOk(s', s'.threads[t])
    ensures OpsOk(s')
  {
    forall u | 0 <= u < |s'.threads| ensures OpOk(s', s'.threads[u]) {
      if u != t {
        assert OpOk(s, s.threads[u]);
        if PastCheck(s.threads[u]) {
          BucketIsMine(s, t, u);
        }
      }
    }
  }

  /** A write past the re-check takes effect on the map as the whole operation. */
  lemma WriteTakesEffect(s: State, s': State, t: nat)
    requires Inv(s) && Enabled(s, Step(t)) && s.threads[t].Write? && s' == Written(s, t)
    ensures Settled(s) && Settled(s') && Uncounted(s'.threads[t]) == |s'.contents| - |s.contents|
    ensures OpOk(s', s'.threads[t]) && PointOk(s', s'.threads[t])
    ensures s'.threads[t].op == s.threads[t].op && s'.threads[t].result == Answer(s.contents, s.threads[t].op)
  {
    var th := s.threads[t];
    assert OpOk(s, th);
    NoRebuilder(s, t);
    EditIsEffect(s.buckets, Home(s.hash, s.nBuckets), s.contents, th.op);
  }

  lemma WriteLocks(s: State, s': State, t: nat)
    requires Typed(s) && LocksOk(s) && HoldersExist(s) && Enabled(s, Step(t)) && s.threads[t].Write? && s' == Written(s, t)
    ensures Typed(s') && LocksOk(s') && HoldersExist(s')
  {
    assert PointOk(s, s.threads[t]);
    TypedAfter(s, s', t, s'.threads[t]);
    assert forall j | 0 <= j < |s.locks| :: (s.locks[j] == Some(t) <==> HoldsLock(s, s.threads[t], j));
    LocksAfter(s, s', t);
  }

  lemma WriteKeepsInv(s: State, s': State, t: nat)
    requires Inv(s) && Enabled(s, Step(t)) && s.threads[t].Write? && s' == Written(s, t)
    ensures Inv(s')
  {
    WriteLocks(s, s', t);
    WriteTakesEffect(s, s', t);
    WriteOps(s, s', t);
    CountedAfter(s, s', t, s'.threads[t]);
    NoRebuilder(s, t);
    WriteTable(s, s', t);
  }

  lemma WriteTable(s: State, s': State, t: nat)
    requires t < |s.threads| && s'.nBuckets > 0 && Settled(s') && |s'.threads| == |s.threads|
    requires forall u | 0 <= u < |s.threads| :: !Rebuilding(s.threads[u])
    requires forall u | 0 <= u < |s.threads| && u != t :: s'.threads[u] == s.threads[u]
    requires !Rebuilding(s'.threads[t])
    ensures TableOk(s')
  {
    forall u | 0 <= u < |s'.threads| ensures !Rebuilding(s'.threads[u]) {
      assert u != t ==> s'.threads[u] == s.threads[u];
    }
  }

  // A thread with every lock works alone on the table.

  ghost predicate Alone(s: State, s': State, t: nat, th: Thread) {
    && t < |s.threads| && s'.threads == s.threads[t := th] && s'.locks == s.locks && s'.hash == s.hash
    && s'.contents == s.contents && s'.nKeys == s.nKeys && s'.nBuckets > 0
    && (forall u | 0 <= u < |s.threads| && u != t :: !HoldsAll(s.threads[u]) && !PastCheck(s.threads[u]))
  }

  lemma AloneStep(s: State, s': State, t: nat, th: Thread)
    requires Inv(s) && Alone(s, s', t, th) && PointOk(s, th) && !PastCheck(th)
    requires HoldsAll(s.threads[t]) && (HoldsAll(th) || th == UnlockAll(0))
    requires if Rebuilding(th) then Halfway(s', th) else Settled(s')
    ensures Inv(s')
  {
    TypedAfter(s, s', t, th);
    assert forall j | 0 <= j < |s.locks| :: (s.locks[j] == Some(t) <==> HoldsLock(s, s.threads[t], j));
    assert LocksMove(s, s', t);
    LocksAfter(s, s', t);
    assert OpsOk(s');
    CountedAfter(s, s', t, th);
    AloneTable(s, s', t, th);
  }

  lemma AloneTable(s: State, s': State, t: nat, th: Thread)
    requires Alone(s, s', t, th)
    requires if Rebuilding(th) then Halfway(s', th) else Settled(s')
    ensures TableOk(s')
  {
    assert Rebuilding(th) ==> Rebuilding(s'.threads[t]);
    forall u | 0 <= u < |s'.threads| && Rebuilding(s'.threads[u]) ensures Halfway(s', s'.threads[u]) {
      assert u == t;
    }
  }

  lemma DecideKeepsInv(s: State, s': State, t: nat)
    requires Inv(s) && Enabled(s, Step(t)) && s.threads[t].Decide? && s.nBuckets < s.threads[t].n
    requires s' == Stepped(s, t)
    ensures Inv(s')
  {
    var n := s.threads[t].n;
    AllExcludes(s, t);
    forall u | 0 <= u < |s.threads| ensures !Rebuilding(s.threads[u]) {
      assert u != t ==> !HoldsAll(s.threads[u]);
    }
    assert Settled(s);
    EmptyRepresents<nat, nat>(n, Home(s.hash, n));
    AloneStep(s, s', t, Move(n, Empty(n), s.contents, map[]));
  }

  lemma MoveNodeKeepsInv(s: State, s': State, t: nat, b: nat)
    requires Inv(s) && Enabled(s, MoveNode(t, b)) && s' == NodeMoved(s, t, b)
    ensures Inv(s')
  {
    var th := s.threads[t];
    assert Halfway(s, th) && PointOk(s, th);
    AllExcludes(s, t);
    var node := s.buckets[b][|s.buckets[b]| - 1];
    assert NodeOk(Home(s.hash, s.nBuckets), th.left, b, node);
    MoveLast(s.buckets, s'.buckets, th.grown, s'.threads[t].grown, Home(s.hash, s.nBuckets), Home(s.hash, th.n),
             th.left, th.moved, b, node);
    MoveKey(s.contents, th.left, th.moved, node.key);
    AloneStep(s, s', t, s'.threads[t]);
  }

  lemma MovedKeepsInv(s: State, s': State, t: nat)
    requires Inv(s) && Enabled(s, Step(t)) && s.threads[t].Move? && s' == Stepped(s, t)
    ensures Inv(s')
  {
    var th := s.threads[t];
    assert Halfway(s, th) && PointOk(s, th);
    AllExcludes(s, t);
    NothingLeft(s.buckets, Home(s.hash, s.nBuckets), th.left);
    assert th.moved == s.contents;
    AloneStep(s, s', t, PublishCount(th.n));
  }

  lemma PublishKeepsInv(s: State, s': State, t: nat)
    requires Inv(s) && Enabled(s, Step(t)) && s.threads[t].PublishCount? && s' == Stepped(s, t)
    ensures Inv(s')
  {
    var th := s.threads[t];
    assert Halfway(s, th);
    AllExcludes(s, t);
    AloneStep(s, s', t, UnlockAll(0));
  }

  lemma ActionKeepsInv(s: State, s': State, a: Action)
    requires Inv(s) && Enabled(s, a) && s' == Apply(s, a)
    ensures Inv(s')
  {
    var th := s.threads[a.t];
    match a
    case Begin(_, _) => StartKeepsInv(s, s', a);
    case Grow(_, _) => StartKeepsInv(s, s', a);
    case MoveNode(t, b) => MoveNodeKeepsInv(s, s', t, b);
    case Step(t) =>
      if th.Write? {
        WriteKeepsInv(s, s', t);
      } else if th.Decide? && s.nBuckets < th.n {
        DecideKeepsInv(s, s', t);
      } else if th.Move? {
        MovedKeepsInv(s, s', t);
      } else if th.PublishCount? {
        PublishKeepsInv(s, s', t);
      } else {
        QuietKeepsInv(s, s', t);
      }
  }

  // ---- runs ----

  lemma InitHasInv(s: State)
    requires Init(s)
    ensures Inv(s)
  {
    EmptyRepresents<nat, nat>(N_INITIAL_BUCKETS, Home(s.hash, N_INITIAL_BUCKETS));
    SumZero(s.threads, Adds);
    SumZero(s.threads, Removes);
  }

  lemma StepKeepsInv(s: State, s': State)
    requires Inv(s) && Next(s, s')
    ensures Inv(s')
  {
    var a :| Enabled(s, a) && s' == Apply(s, a);
    ActionKeepsInv(s, s', a);
  }

  lemma {:induction false} RunKeepsInv(run: seq<State>, i: nat)
    requires Run(run) && i < |run|
    ensures Inv(run[i])
  {
    if i == 0 {
      InitHasInv(run[0]);
    } else {
      RunKeepsInv(run, i - 1);
      RunStep(run, i);
    }
  }

  lemma RunStep(run: seq<State>, i: nat)
    requires Run(run) && 0 < i < |run| && Inv(run[i - 1])
    ensures Inv(run[i])
  {
    StepKeepsInv(run[i - 1], run[i]);
  }

  /** In every state of every run the table refines the map unless a thread with every lock is rebuilding it. */
  lemma RefinesMap(run: seq<State>, i: nat)
    requires Run(run) && i < |run| && forall t | 0 <= t < |run[i].threads| :: !Rebuilding(run[i].threads[t])
    ensures |run[i].buckets| == run[i].nBuckets > 0
    ensures Represents(run[i].buckets, Home(run[i].hash, run[i].nBuckets), run[i].contents)
  {
    RunKeepsInv(run, i);
  }

  /** In every state of every run n_keys is the size of the map but for the operations that have changed it and not
      yet counted; with none of these it is exact. */
  lemma KeysAreCounted(run: seq<State>, i: nat)
    requires Run(run) && i < |run|
    ensures run[i].nKeys + Sum(run[i].threads, Adds) - Sum(run[i].threads, Removes) == |run[i].contents|
    ensures (forall t | 0 <= t < |run[i].threads| :: !run[i].threads[t].Count?) ==> run[i].nKeys == |run[i].contents|
  {
    RunKeepsInv(run, i);
    if forall t | 0 <= t < |run[i].threads| :: !run[i].threads[t].Count? {
      SumZero(run[i].threads, Adds);
      SumZero(run[i].threads, Removes);
    }
  }

  /** The keys added and not yet counted. */
  ghost function AddedKeys(threads: seq<Thread>): set<nat> {
    if threads == [] then {}
    else
      var last := threads[|threads| - 1];
      AddedKeys(threads[..|threads| - 1]) + if Adds(last) == 1 then {last.op.key} else {}
  }

  /** Uncounted additions are of different keys, all in the map. */
  ghost predicate AddersApart(threads: seq<Thread>, keys: set<nat>) {
    && (forall t | 0 <= t < |threads| && Adds(threads[t]) == 1 :: threads[t].op.key in keys)
    && (forall t, u | 0 <= t < u < |threads| && Adds(threads[t]) == 1 && Adds(threads[u]) == 1 ::
         threads[t].op.key != threads[u].op.key)
  }

  lemma {:induction false} AddedKeysAre(threads: seq<Thread>, keys: set<nat>)
    requires AddersApart(threads, keys)
    ensures AddedKeys(threads) <= keys && |AddedKeys(threads)| == Sum(threads, Adds)
    ensures forall k | k in AddedKeys(threads) ::
              exists t | 0 <= t < |threads| :: Adds(threads[t]) == 1 && threads[t].op.key == k
  {
    if threads != [] {
      var front := threads[..|threads| - 1];
      assert forall t | 0 <= t < |front| :: front[t] == threads[t];
      AddedKeysAre(front, keys);
    }
  }

  lemma AddersAreApart(s: State)
    requires Typed(s) && LocksOk(s) && OpsOk(s)
    ensures AddersApart(s.threads, s.contents.Keys)
  {
    forall t | 0 <= t < |s.threads| && Adds(s.threads[t]) == 1 ensures s.threads[t].op.key in s.contents.Keys {
      assert OpOk(s, s.threads[t]);
    }
    forall t, u | 0 <= t < u < |s.threads| && Adds(s.threads[t]) == 1 && Adds(s.threads[u]) == 1
      ensures s.threads[t].op.key != s.threads[u].op.key
    {
      BucketIsMine(s, t, u);
    }
  }

  /** n_keys never goes below zero: a key is only taken out after its addition was counted. */
  lemma CountNeverUnderflows(run: seq<State>, i: nat)
    requires Run(run) && i < |run|
    ensures run[i].nKeys >= 0
  {
    RunKeepsInv(run, i);
    var s := run[i];
    AddersAreApart(s);
    AddedKeysAre(s.threads, s.contents.Keys);
    SubsetSize(AddedKeys(s.threads), s.contents.Keys);
  }

  lemma SubsetSize(a: set<nat>, b: set<nat>)
    requires a <= b
    ensures |a| <= |b|
  {
    assert b == a + (b - a);
  }

  /** An operation that passed the re-check works on the current table's bucket for its key while holding
      the lock that guards it, and its write takes effect as the whole operation: on the map as it is at
      that moment, with that map's answer. */
  lemma OperationIsAtomic(run: seq<State>, i: nat, t: nat)
    requires Run(run) && i < |run| && t < |run[i].threads| && run[i].threads[t].Write?
    ensures Typed(run[i]) && Enabled(run[i], Step(t)) && GuardedWrite(run[i], t)
    ensures AtomicWrite(run[i], Apply(run[i], Step(t)), t)
  {
    RunKeepsInv(run, i);
    WriteIsAtomic(run[i], t);
  }

  /** The thread's copy is of its key's bucket in the current table, whose lock it holds. */
  ghost predicate GuardedWrite(s: State, t: nat)
    requires Typed(s) && t < |s.threads| && s.threads[t].Write?
  {
    var th := s.threads[t];
    && th.snap == s.nBuckets == |s.buckets| && s.locks[SegmentOf(s, th.op, s.nBuckets)] == Some(t)
    && th.seen == s.buckets[BucketOf(s, th.op, s.nBuckets)]
  }

  ghost predicate AtomicWrite(s: State, s': State, t: nat)
    requires t < |s.threads| && s.threads[t].Write? && s'.nBuckets > 0
  {
    && s'.contents == Effect(s.contents, s.threads[t].op) && Settled(s') && |s'.threads| == |s.threads|
    && (s'.threads[t].Unlock? || s'.threads[t].Count?)
    && s'.threads[t].result == Answer(s.contents, s.threads[t].op)
  }

  lemma WriteIsAtomic(s: State, t: nat)
    requires Inv(s) && t < |s.threads| && s.threads[t].Write?
    ensures Enabled(s, Step(t)) && GuardedWrite(s, t) && AtomicWrite(s, Written(s, t), t)
  {
    var th := s.threads[t];
    assert PointOk(s, th) && OpOk(s, th);
    NoRebuilder(s, t);
    assert HoldsLock(s, th, SegmentOf(s, th.op, s.nBuckets));
    WriteTakesEffect(s, Written(s, t), t);
  }

  /** The bucket count and the table vector change only while every lock is held by the thread that changes
      them, and the map never changes but by an operation's write. */
  lemma GrowthIsExclusive(run: seq<State>, i: nat, a: Action)
    requires Run(run) && i < |run| && Typed(run[i]) && Enabled(run[i], a)
    ensures var s, s' := run[i], Apply(run[i], a);
            && (s'.nBuckets != s.nBuckets || |s'.buckets| != |s.buckets| ==>
                  forall j | 0 <= j < |s.locks| :: s.locks[j] == Some(a.t))
            && s'.nBuckets >= s.nBuckets
            && (s'.contents != s.contents ==> a.Step? && s.threads[a.t].Write?)
  {
    RunKeepsInv(run, i);
    OnlyRebuildGrows(run[i], a);
    if Rebuilding(run[i].threads[a.t]) {
      RebuilderHoldsAll(run[i], a.t);
    }
  }

  lemma OnlyRebuildGrows(s: State, a: Action)
    requires Typed(s) && Enabled(s, a) && s.nBuckets > 0
    requires Rebuilding(s.threads[a.t]) ==> Halfway(s, s.threads[a.t])
    ensures var s' := Apply(s, a);
            && (s'.nBuckets != s.nBuckets || |s'.buckets| != |s.buckets| ==> Rebuilding(s.threads[a.t]))
            && s'.nBuckets >= s.nBuckets && (s'.contents != s.contents ==> a.Step? && s.threads[a.t].Write?)
  {
  }

  lemma RebuilderHoldsAll(s: State, t: nat)
    requires Typed(s) && LocksOk(s) && t < |s.threads| && Rebuilding(s.threads[t])
    ensures forall j | 0 <= j < |s.locks| :: s.locks[j] == Some(t)
  {
    forall j | 0 <= j < |s.locks| ensures s.locks[j] == Some(t) {
      assert HoldsLock(s, s.threads[t], j);
    }
  }

  /** Locks are waited for in ascending order, so a wait for lock j leads to a thread that can move. */
  lemma {:induction false} WaitEnds(s: State, j: nat) returns (t: nat)
    requires Inv(s) && j < |s.locks| && s.locks[j].Some?
    ensures t < |s.threads| && !s.threads[t].Idle? && !Blocked(s, s.threads[t])
    decreases |s.locks| - j
  {
    t := s.locks[j].value;
    assert PointOk(s, s.threads[t]) && HoldsLock(s, s.threads[t], j);
    if Blocked(s, s.threads[t]) {
      t := WaitEnds(s, s.threads[t].k);
    }
  }

  /** A thread that is not idle and not waiting for a lock has a step to take. */
  lemma UnblockedMoves(s: State, t: nat)
    requires Inv(s) && t < |s.threads| && !s.threads[t].Idle? && !Blocked(s, s.threads[t])
    ensures exists a :: Enabled(s, a) && a.t == t
  {
    var th := s.threads[t];
    assert PointOk(s, th) && OpOk(s, th);
    if PastCheck(th) {
      NoRebuilder(s, t);
      assert Enabled(s, Step(t));
    } else if th.Move? && exists b :: 0 <= b < |s.buckets| && |s.buckets[b]| > 0 {
      var b :| 0 <= b < |s.buckets| && |s.buckets[b]| > 0;
      assert Enabled(s, MoveNode(t, b));
    } else {
      assert Enabled(s, Step(t));
    }
  }

  /** No run deadlocks: while some operation is unfinished, some unfinished one can step. */
  lemma NoDeadlock(run: seq<State>, i: nat, t: nat)
    requires Run(run) && i < |run| && t < |run[i].threads| && !run[i].threads[t].Idle?
    ensures Typed(run[i]) && exists a :: Enabled(run[i], a) && !run[i].threads[a.t].Idle?
  {
    RunKeepsInv(run, i);
    var s := run[i];
    var u := t;
    if Blocked(s, s.threads[t]) {
      var th := s.threads[t];
      u := WaitEnds(s, if th.Lock? then SegmentOf(s, th.op, th.snap) else th.k);
    }
    UnblockedMoves(s, u);
  }
}
