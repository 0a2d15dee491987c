/**
  LightweightSemaphore, and the BlockingConcurrentQueue that hands out elements against its permits, for
  any number of threads.  Every atomic operation on m_count and on the kernel semaphore is one step; a
  kernel release of n permits is n steps.  The inner queue enters as the number of elements put in and
  taken out: one attempt at it takes between one element and as many as asked for, or fails and is retried.
 */
module Semaphore {
  import opened Counting

  const SPINS: nat := 10000

  /** How a consumer waits: not at all, for ever, or until a timeout. */
  datatype Wait = Try | Block | Timed

  /** Program points; `max` is the number of permits still asked for, `held` the number already got. */
  datatype Thread =
    | Idle
    // BlockingConcurrentQueue::enqueue, LightweightSemaphore::signal
    | Signal(n: nat)
    | Post(n: nat)
    // tryWait, tryWaitMany
    | TryLoad(max: nat, held: nat, w: Wait)
    | TryCas(max: nat, held: nat, w: Wait, was: int)
    // waitWithPartialSpinning, waitManyWithPartialSpinning
    | Spin(max: nat, w: Wait, left: nat)
    | SpinCas(max: nat, w: Wait, left: nat, was: int)
    | Subtract(max: nat, w: Wait)
    | Sleep(max: nat, w: Wait)
    | Recover(max: nat)
    | RecoverSema(max: nat)
    | RecoverCas(max: nat, was: int)
    // the loops around the inner queue's try_dequeue and try_dequeue_bulk
    | Holding(n: nat)

  datatype State = State(count: int, sema: nat, threads: seq<Thread>,
                         initial: nat, signalled: nat, acquired: nat, enqueued: nat, dequeued: nat)

  datatype Action =
    | Enqueue(t: nat, n: nat)
    | Request(t: nat, max: nat, w: Wait)
    | Step(t: nat)
    | WeakFailure(t: nat)
    | TimeOut(t: nat)
    | Dequeue(t: nat, n: nat)

  predicate Init(s: State) {
    && s.count == s.initial && s.sema == 0 && s.signalled == s.acquired == s.enqueued == s.dequeued == 0
    && forall t | 0 <= t < |s.threads| :: s.threads[t] == Idle
  }

  predicate Enabled(s: State, a: Action) {
    && a.t < |s.threads|
    && var th := s.threads[a.t];
      match a
      case Enqueue(_, n) => th.Idle?
      case Request(_, max, _) => th.Idle?
      case Step(_) => !th.Idle? && !(th.Sleep? && s.sema == 0) && !(th.Holding? && th.n > 0)
      case WeakFailure(_) => th.TryCas?
      case TimeOut(_) => th.Sleep? && th.w.Timed?
      case Dequeue(_, n) => th.Holding? && 0 < n <= th.n && s.dequeued + n <= s.enqueued
  }

  function Go(s: State, t: nat, th: Thread): State
    requires t < |s.threads|
  {
    s.(threads := s.threads[t := th])
  }

  function Min(a: int, b: int): int { if a < b then a else b }

  /** What tryWaitMany does with the count it has read. */
  function Tried(max: nat, held: nat, w: Wait, was: int): Thread {
    if was > 0 then TryCas(max, held, w, was)
    else Refused(max, held, w)
  }

  /** No permit this time. */
  function Refused(max: nat, held: nat, w: Wait): Thread {
    if held > 0 then Holding(held)
    else if w.Try? || max == 0 then Idle
    else Spin(max, w, SPINS)
  }

  /** The first permit of a spinning wait; the bulk form goes on to try for more. */
  function Got(max: nat): Thread {
    if max > 1 then TryLoad(max - 1, 1, Try) else Holding(1)
  }

  function Released(s: State, t: nat, n: nat): State
    requires t < |s.threads|
  {
    var toRelease := Min(0 - s.count, n);
    Go(s.(count := s.count + n, signalled := s.signalled + n), t, if toRelease > 0 then Post(toRelease) else Idle)
  }

  function Taken(s: State, t: nat): State
    requires t < |s.threads| && s.threads[t].TryCas?
  {
    var th := s.threads[t];
    if s.count != th.was then Go(s, t, Tried(th.max, th.held, th.w, s.count))
    else if th.was <= 0 then Go(s, t, Refused(th.max, th.held, th.w))
    else
      var got := Min(th.was, th.max);
      Go(s.(count := s.count - got, acquired := s.acquired + got), t,
         if th.held + got > 0 then Holding(th.held + got) else Refused(th.max, th.held, th.w))
  }

  function Spun(s: State, t: nat): State
    requires t < |s.threads| && s.threads[t].SpinCas?
  {
    var th := s.threads[t];
    if s.count != th.was || th.was <= 0 then Go(s, t, Spin(th.max, th.w, th.left))
    else
      var got := Min(th.was, th.max);
      Go(s.(count := s.count - got, acquired := s.acquired + got), t, Holding(got))
  }

  function Subtracted(s: State, t: nat): State
    requires t < |s.threads| && s.threads[t].Subtract?
  {
    var th := s.threads[t];
    var s1 := s.(count := s.count - 1);
    if s.count > 0 then Go(s1.(acquired := s.acquired + 1), t, Got(th.max))
    else Go(s1, t, Sleep(th.max, th.w))
  }

  /** The kernel hands a permit to thread t. */
  function Woken(s: State, t: nat): State
    requires t < |s.threads| && (s.threads[t].Sleep? || s.threads[t].RecoverSema?) && s.sema > 0
  {
    Go(s.(sema := s.sema - 1, acquired := s.acquired + 1), t, Got(s.threads[t].max))
  }

  function GaveUp(s: State, t: nat): State
    requires t < |s.threads| && s.threads[t].RecoverCas?
  {
    var th := s.threads[t];
    if s.count == th.was then Go(s.(count := s.count + 1), t, Idle) else Go(s, t, Recover(th.max))
  }

  function Stepped(s: State, t: nat): State
    requires Enabled(s, Step(t))
  {
    match s.threads[t]
    case Idle => s
    case Signal(n) => Released(s, t, n)
    case Post(n) => Go(s.(sema := s.sema + 1), t, if n > 1 then Post(n - 1) else Idle)
    case TryLoad(max, held, w) => Go(s, t, Tried(max, held, w, s.count))
    case TryCas(_, _, _, _) => Taken(s, t)
    case Spin(max, w, left) =>
      if left == 0 then Go(s, t, Subtract(max, w))
      else Go(s, t, if s.count > 0 then SpinCas(max, w, left - 1, s.count) else Spin(max, w, left - 1))
    case SpinCas(_, _, _, _) => Spun(s, t)
    case Subtract(_, _) => Subtracted(s, t)
    case Sleep(_, _) => Woken(s, t)
    case Recover(max) => Go(s, t, if s.count >= 0 then RecoverSema(max) else RecoverCas(max, s.count))
    case RecoverSema(max) => if s.sema > 0 then Woken(s, t) else Go(s, t, Recover(max))
    case RecoverCas(_, _) => GaveUp(s, t)
    case Holding(_) => Go(s, t, Idle)
  }

  function Apply(s: State, a: Action): State
    requires Enabled(s, a)
  {
    var th := s.threads[a.t];
    match a
    case Enqueue(t, n) => Go(s.(enqueued := s.enqueued + n), t, Signal(n))
    case Request(t, max, w) => Go(s, t, TryLoad(max, 0, w))
    case Step(t) => Stepped(s, t)
    case WeakFailure(t) => Go(s, t, Tried(th.max, th.held, th.w, s.count))
    case TimeOut(t) => Go(s, t, Recover(th.max))
    case Dequeue(t, n) => Go(s.(dequeued := s.dequeued + n), t, Holding(th.n - n))
  }

  ghost predicate Next(s: State, s': State) { exists a :: Enabled(s, a) && s' == Apply(s, a) }

  ghost predicate Run(run: seq<State>) {
    && |run| > 0 && Init(run[0])
    && forall i, j | 0 <= i < j < |run| && j == i + 1 :: Next(run[i], run[j])
  }

  // ---- the invariant ----

  /** 1 for a thread that has decremented the count and is not yet resolved. */
  function Unresolved(th: Thread): nat {
    if th.Sleep? || th.Recover? || th.RecoverSema? || th.RecoverCas? then 1 else 0
  }

  /** Kernel releases promised but not yet posted. */
  function Promised(th: Thread): nat { if th.Post? then th.n else 0 }

  /** Elements put in but not yet signalled. */
  function Unsignalled(th: Thread): nat { if th.Signal? then th.n else 0 }

  /** Permits a thread holds. */
  function Held(th: Thread): nat {
    if th.Holding? then th.n else if th.TryLoad? || th.TryCas? then th.held else 0
  }

  function Waiters(s: State): nat { Sum(s.threads, Unresolved) }
  function Releases(s: State): nat { Sum(s.threads, Promised) }
  function Pending(s: State): nat { Sum(s.threads, Unsignalled) }
  function Permits(s: State): nat { Sum(s.threads, Held) }

  predicate PointOk(th: Thread) {
    match th
    case TryCas(_, _, _, was) => was > 0
    case Spin(max, w, _) => max > 0 && !w.Try?
    case SpinCas(max, w, _, was) => max > 0 && !w.Try? && was > 0
    case Subtract(max, w) => max > 0 && !w.Try?
    case Sleep(max, w) => max > 0 && !w.Try?
    case RecoverCas(_, was) => was < 0
    case Post(n) => n > 0
    case _ => true
  }

  ghost predicate Points(threads: seq<Thread>) { forall t | 0 <= t < |threads| :: PointOk(threads[t]) }

  /** The five counters, against what is in flight. */
  ghost predicate Balance(s: State, w: int, p: int, pending: int, permits: int) {
    && w == s.sema + p + (if s.count < 0 then 0 - s.count else 0)
    && s.initial + s.signalled == s.acquired + s.count + w
    && s.signalled + pending == s.enqueued
    && s.acquired == s.dequeued + permits
  }

  ghost predicate Inv(s: State) {
    Points(s.threads) && Balance(s, Waiters(s), Releases(s), Pending(s), Permits(s))
  }

  /** The four sums after thread t moves to th. */
  lemma Moves(s: State, s': State, t: nat, th: Thread)
    requires t < |s.threads| && s'.threads == s.threads[t := th]
    ensures Waiters(s') == Waiters(s) - Unresolved(s.threads[t]) + Unresolved(th)
    ensures Releases(s') == Releases(s) - Promised(s.threads[t]) + Promised(th)
    ensures Pending(s') == Pending(s) - Unsignalled(s.threads[t]) + Unsignalled(th)
    ensures Permits(s') == Permits(s) - Held(s.threads[t]) + Held(th)
  {
    SumUpdate(s.threads, t, th, Unresolved);
    SumUpdate(s.threads, t, th, Promised);
    SumUpdate(s.threads, t, th, Unsignalled);
    SumUpdate(s.threads, t, th, Held);
  }

  /** Thread t has moved, and the counters balance with its contribution changed. */
  ghost predicate Moved(s: State, s': State, t: nat, w: int, p: int, pending: int, permits: int)
    requires t < |s.threads|
  {
    && |s'.threads| == |s.threads| && s'.threads == s.threads[t := s'.threads[t]] && PointOk(s'.threads[t])
    && var th, th' := s.threads[t], s'.threads[t];
      Balance(s', w - Unresolved(th) + Unresolved(th'), p - Promised(th) + Promised(th'),
              pending - Unsignalled(th) + Unsignalled(th'), permits - Held(th) + Held(th'))
  }

  lemma SignalBalance(s: State, s': State, t: nat, w: int, p: int, pending: int, permits: int)
    requires Enabled(s, Step(t)) && Balance(s, w, p, pending, permits) && PointOk(s.threads[t]) && p >= 0
    requires s.threads[t].Signal? || s.threads[t].Post?
    requires s' == Stepped(s, t)
    ensures Moved(s, s', t, w, p, pending, permits)
  {
  }

  lemma TryBalance(s: State, s': State, t: nat, w: int, p: int, pending: int, permits: int)
    requires Enabled(s, Step(t)) && Balance(s, w, p, pending, permits) && PointOk(s.threads[t]) && p >= 0
    requires s.threads[t].TryLoad? || s.threads[t].TryCas?
    requires s' == Stepped(s, t)
    ensures Moved(s, s', t, w, p, pending, permits)
  {
  }

  lemma SpinBalance(s: State, s': State, t: nat, w: int, p: int, pending: int, permits: int)
    requires Enabled(s, Step(t)) && Balance(s, w, p, pending, permits) && PointOk(s.threads[t]) && p >= 0
    requires s.threads[t].Spin? || s.threads[t].SpinCas?
    requires s' == Stepped(s, t)
    ensures Moved(s, s', t, w, p, pending, permits)
  {
  }

  lemma SubtractBalance(s: State, s': State, t: nat, w: int, p: int, pending: int, permits: int)
    requires Enabled(s, Step(t)) && Balance(s, w, p, pending, permits) && PointOk(s.threads[t]) && p >= 0
    requires s.threads[t].Subtract? || s.threads[t].Sleep? || s.threads[t].Holding?
    requires s' == Stepped(s, t)
    ensures Moved(s, s', t, w, p, pending, permits)
  {
  }

  lemma RecoverBalance(s: State, s': State, t: nat, w: int, p: int, pending: int, permits: int)
    requires Enabled(s, Step(t)) && Balance(s, w, p, pending, permits) && PointOk(s.threads[t]) && p >= 0
    requires s.threads[t].Recover? || s.threads[t].RecoverSema? || s.threads[t].RecoverCas?
    requires s' == Stepped(s, t)
    ensures Moved(s, s', t, w, p, pending, permits)
  {
  }

  lemma ActionBalance(s: State, s': State, a: Action, w: int, p: int, pending: int, permits: int)
    requires Enabled(s, a) && Balance(s, w, p, pending, permits) && PointOk(s.threads[a.t]) && p >= 0
    requires s' == Apply(s, a)
    ensures Moved(s, s', a.t, w, p, pending, permits)
  {
    if a.Step? {
      match s.threads[a.t] {
        case Signal(_) => SignalBalance(s, s', a.t, w, p, pending, permits);
        case Post(_) => SignalBalance(s, s', a.t, w, p, pending, permits);
        case TryLoad(_, _, _) => TryBalance(s, s', a.t, w, p, pending, permits);
        case TryCas(_, _, _, _) => TryBalance(s, s', a.t, w, p, pending, permits);
        case Spin(_, _, _) => SpinBalance(s, s', a.t, w, p, pending, permits);
        case SpinCas(_, _, _, _) => SpinBalance(s, s', a.t, w, p, pending, permits);
        case Recover(_) => RecoverBalance(s, s', a.t, w, p, pending, permits);
        case RecoverSema(_) => RecoverBalance(s, s', a.t, w, p, pending, permits);
        case RecoverCas(_, _) => RecoverBalance(s, s', a.t, w, p, pending, permits);
        case _ => SubtractBalance(s, s', a.t, w, p, pending, permits);
      }
    }
  }

  lemma StepKeepsInv(s: State, s': State)
    requires Inv(s) && Next(s, s')
    ensures Inv(s')
  {
    var a :| Enabled(s, a) && s' == Apply(s, a);
    assert PointOk(s.threads[a.t]);
    ActionBalance(s, s', a, Waiters(s), Releases(s), Pending(s), Permits(s));
    Moves(s, s', a.t, s'.threads[a.t]);
  }

  lemma {:induction false} RunKeepsInv(run: seq<State>, i: nat)
    requires Run(run) && i < |run|
    ensures Inv(run[i]) && run[i].initial == run[0].initial
  {
    if i == 0 {
      var s := run[0];
      SumZero(s.threads, Unresolved);
      SumZero(s.threads, Promised);
      SumZero(s.threads, Unsignalled);
      SumZero(s.threads, Held);
    } else {
      RunKeepsInv(run, i - 1);
      StepKeepsInv(run[i - 1], run[i]);
    }
  }

  /** Permits are never handed out beyond the initial ones and those signalled. */
  lemma PermitsAreBacked(run: seq<State>, i: nat)
    requires Run(run) && i < |run|
    ensures run[i].acquired <= run[0].initial + run[i].signalled
    ensures run[i].initial + run[i].signalled - run[i].acquired
         == run[i].sema + Releases(run[i]) + (if run[i].count > 0 then run[i].count else 0)
  {
    RunKeepsInv(run, i);
  }

  /** No wakeup is lost: once the count is back at 0 or above, each waiter that has not been resolved is
      matched by a kernel permit that is there or promised. */
  lemma NoLostWakeup(run: seq<State>, i: nat)
    requires Run(run) && i < |run| && run[i].count >= 0
    ensures Waiters(run[i]) == run[i].sema + Releases(run[i])
  {
    RunKeepsInv(run, i);
  }

  /** With no initial permits, the elements that have not been taken out number at least the permits held,
      so the retry loop of a permit holder always has an element to find. */
  lemma HolderHasElement(run: seq<State>, i: nat, t: nat)
    requires Run(run) && run[0].initial == 0 && i < |run|
    ensures run[i].enqueued - run[i].dequeued >= Permits(run[i])
    ensures t < |run[i].threads| && Held(run[i].threads[t]) > 0 ==>
              run[i].enqueued - run[i].dequeued >= Held(run[i].threads[t])
    ensures t < |run[i].threads| && run[i].threads[t].Holding? && run[i].threads[t].n > 0 ==>
              Enabled(run[i], Dequeue(t, run[i].threads[t].n))
  {
    RunKeepsInv(run, i);
    PermitsAreBacked(run, i);
    if t < |run[i].threads| {
      SumAtLeast(run[i].threads, t, Held);
    }
  }

  /** Nobody sleeps beside an element: if every thread is idle or asleep with no kernel permit to wake up
      to, and one is asleep, then every element put in has been taken out. */
  lemma AsleepMeansEmpty(run: seq<State>, i: nat, t: nat)
    requires Run(run) && run[0].initial == 0 && i < |run| && t < |run[i].threads| && run[i].threads[t].Sleep?
    requires run[i].sema == 0
    requires forall u | 0 <= u < |run[i].threads| :: run[i].threads[u].Idle? || run[i].threads[u].Sleep?
    ensures run[i].enqueued == run[i].dequeued
  {
    RunKeepsInv(run, i);
    var s := run[i];
    SumZero(s.threads, Promised);
    SumZero(s.threads, Unsignalled);
    SumZero(s.threads, Held);
    SumAtLeast(s.threads, t, Unresolved);
  }

  /** A thread in a wait that may block, without a permit and not timed out. */
  predicate Waiting(th: Thread) {
    || ((th.TryLoad? || th.TryCas?) && th.held == 0 && th.max > 0 && !th.w.Try?)
    || th.Spin? || th.SpinCas? || th.Subtract? || th.Sleep?
  }

  /** The kernel wait of thread t times out in this step. */
  ghost predicate TimesOut(s: State, s': State, t: nat) { Enabled(s, TimeOut(t)) && s' == Apply(s, TimeOut(t)) }

  lemma WaitGoesOn(s: State, s': State, t: nat)
    requires Next(s, s') && t < |s.threads| && PointOk(s.threads[t]) && Waiting(s.threads[t])
    ensures t < |s'.threads|
    ensures Waiting(s'.threads[t]) || Held(s'.threads[t]) > 0 || TimesOut(s, s', t)
  {
    var a :| Enabled(s, a) && s' == Apply(s, a);
    if a == Step(t) {
      StepKeepsWaiting(s, t);
    }
  }

  lemma StepKeepsWaiting(s: State, t: nat)
    requires Enabled(s, Step(t)) && PointOk(s.threads[t]) && Waiting(s.threads[t])
    ensures var s' := Stepped(s, t);
            |s'.threads| == |s.threads| && (Waiting(s'.threads[t]) || Held(s'.threads[t]) > 0)
  {
  }

  lemma WaitGoesOnInRun(run: seq<State>, j: nat, t: nat)
    requires Run(run) && 0 < j < |run| && t < |run[j - 1].threads| && Waiting(run[j - 1].threads[t])
    ensures t < |run[j].threads|
    ensures Waiting(run[j].threads[t]) || Held(run[j].threads[t]) > 0 || TimesOut(run[j - 1], run[j], t)
  {
    RunKeepsInv(run, j - 1);
    assert PointOk(run[j - 1].threads[t]);
    WaitGoesOn(run[j - 1], run[j], t);
  }

  /** Over a run a wait that may block goes on until the thread has a permit or its kernel wait times out: without
      either it is still waiting, so it has not returned. */
  lemma {:induction false} WaitEndsWithPermitOrTimeout(run: seq<State>, i: nat, j: nat, t: nat)
    requires Run(run) && i <= j < |run| && t < |run[i].threads| && Waiting(run[i].threads[t])
    requires forall k | i < k <= j :: t < |run[k].threads| && Held(run[k].threads[t]) == 0
    requires forall k, m | i <= k < m <= j && m == k + 1 :: !TimesOut(run[k], run[m], t)
    ensures t < |run[j].threads| && Waiting(run[j].threads[t])
    decreases j
  {
    if i < j {
      WaitEndsWithPermitOrTimeout(run, i, j - 1, t);
      WaitGoesOnInRun(run, j, t);
    }
  }
}
