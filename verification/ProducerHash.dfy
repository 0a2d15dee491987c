/**
  The chain of hash tables from thread ids to implicit producers (get_or_add_implicit_producer), for any
  number of threads and any number of table resizes.  Thread t has id t and hash `hash[t]`.
  Every atomic load, fetch_add, test_and_set, compare_exchange and store is one step; the code a thread
  runs on its own data between two of them belongs to the step before.
  No producer is recycled and no allocation fails.
 */
module ProducerHash {
  import opened Wrappers
  import opened ModArith

  const INITIAL_SIZE: nat := 32

  /** `probes` records how many slots were passed over before the key was placed; it is bookkeeping only. */
  datatype Entry = Free | Taken(id: nat, probes: nat, value: Option<nat>)

  datatype Table = Table(entries: seq<Entry>, prev: Option<nat>)

  /** Program points of get_or_add_implicit_producer; `main` is the captured table, n the thread's count. */
  datatype Thread =
    | Idle(last: Option<nat>)
    | Search(main: nat, table: nat, k: nat)
    | Count(main: nat)
    | Check(main: nat, n: nat)
    | Reload(n: nat)
    | Allocate(main: nat, n: nat)
    | Unlock(main: nat, n: nat)
    | Fit(main: nat, n: nat)
    // placing a key and a value in the captured table, for a lazy copy or for a new producer
    | Place(main: nat, k: nat, value: nat)
    | PlaceCas(main: nat, k: nat, value: nat)
    | PlaceStore(main: nat, k: nat, value: nat)

  /** Auxiliary: `ordinal` is the count each id drew, `producer` the producer made for it. */
  datatype State = State(hash: seq<nat>, tables: seq<Table>, count: nat, locked: bool, made: nat,
                         threads: seq<Thread>, ordinal: seq<Option<nat>>, producer: seq<Option<nat>>)

  function Capacity(b: Table): nat { |b.entries| }

  function Slot(h: nat, k: nat, capacity: nat): (q: nat)
    requires capacity > 0
    ensures q < capacity
  {
    (h + k) % capacity
  }

  /** The room a table offers: half its capacity plus a quarter. */
  function Room(b: Table): nat { Capacity(b) / 2 + Capacity(b) / 4 }

  /** The first of c, 2c, 4c, ... more than twice n. */
  function Grown(c: nat, n: nat): (r: nat)
    requires c >= 2
    ensures r >= c && n < r / 2
    decreases if n >= c / 2 then n - c / 2 + 1 else 0
  {
    if n >= c / 2 then Grown(2 * c, n) else c
  }

  function Fresh(c: nat, prev: nat): Table { Table(seq(c, _ => Free), Some(prev)) }

  predicate PointOk(s: State, th: Thread) {
    match th
    case Idle(_) => true
    case Reload(_) => true
    case Search(m, j, _) => m < |s.tables| && j < |s.tables|
    case _ => th.main < |s.tables|
  }

  predicate Typed(s: State) {
    && |s.hash| == |s.threads| == |s.ordinal| == |s.producer| && |s.tables| > 0
    && (forall i | 0 <= i < |s.tables| :: TableTyped(s.tables, i))
    && (forall t | 0 <= t < |s.threads| :: PointOk(s, s.threads[t]))
  }

  predicate TableTyped(tables: seq<Table>, i: nat)
    requires i < |tables|
  {
    Capacity(tables[i]) >= INITIAL_SIZE && (tables[i].prev.Some? ==> tables[i].prev.value < |tables|)
  }

  predicate Init(s: State) {
    && Typed(s) && s.tables == [Table(seq(INITIAL_SIZE, _ => Free), None)] && s.count == 0 && !s.locked
    && (forall t | 0 <= t < |s.threads| :: s.threads[t] == Idle(None) && s.ordinal[t] == None && s.producer[t] == None)
  }

  function Go(s: State, t: nat, th: Thread): State
    requires t < |s.threads|
  {
    s.(threads := s.threads[t := th])
  }

  function SetEntry(s: State, m: nat, q: nat, e: Entry): State
    requires m < |s.tables| && q < Capacity(s.tables[m])
  {
    s.(tables := s.tables[m := s.tables[m].(entries := s.tables[m].entries[q := e])])
  }

  /** The entry thread t looks at on its k-th probe of table j. */
  function Probe(s: State, t: nat, j: nat, k: nat): Entry
    requires Typed(s) && t < |s.threads| && j < |s.tables|
  {
    assert TableTyped(s.tables, j);
    s.tables[j].entries[Slot(s.hash[t], k, Capacity(s.tables[j]))]
  }

  function Searched(s: State, t: nat): State
    requires Typed(s) && t < |s.threads| && s.threads[t].Search?
  {
    var th := s.threads[t];
    assert PointOk(s, th) && TableTyped(s.tables, th.table);
    var e := Probe(s, t, th.table, th.k);
    var prev := s.tables[th.table].prev;
    if e.Free? then
      Go(s, t, if prev.Some? then Search(th.main, prev.value, 0) else Count(th.main))
    else if e.id != t then Go(s, t, Search(th.main, th.table, th.k + 1))
    else if th.table == th.main then Go(s, t, Idle(e.value))
    else Go(s, t, Place(th.main, 0, if e.value.Some? then e.value.value else 0))
  }

  function Counted(s: State, t: nat): State
    requires Typed(s) && t < |s.threads| && s.threads[t].Count?
  {
    var n := s.count + 1;
    Go(s.(count := n, ordinal := s.ordinal[t := Some(n)]), t, Check(s.threads[t].main, n))
  }

  function Checked(s: State, t: nat): State
    requires Typed(s) && t < |s.threads| && s.threads[t].Check?
  {
    var th := s.threads[t];
    assert PointOk(s, th);
    if th.n < Capacity(s.tables[th.main]) / 2 || s.locked then Go(s, t, Fit(th.main, th.n))
    else Go(s.(locked := true), t, Reload(th.n))
  }

  function Reloaded(s: State, t: nat): State
    requires Typed(s) && t < |s.threads| && s.threads[t].Reload?
  {
    var n, m := s.threads[t].n, |s.tables| - 1;
    Go(s, t, if n >= Capacity(s.tables[m]) / 2 then Allocate(m, n) else Unlock(m, n))
  }

  function Allocated(s: State, t: nat): State
    requires Typed(s) && t < |s.threads| && s.threads[t].Allocate?
  {
    var th := s.threads[t];
    assert PointOk(s, th) && TableTyped(s.tables, th.main);
    var b := Fresh(Grown(2 * Capacity(s.tables[th.main]), th.n), th.main);
    Go(s.(tables := s.tables + [b]), t, Unlock(|s.tables|, th.n))
  }

  function Fitted(s: State, t: nat): State
    requires Typed(s) && t < |s.threads| && s.threads[t].Fit?
  {
    var th := s.threads[t];
    assert PointOk(s, th);
    if th.n < Room(s.tables[th.main]) then
      Go(s.(made := s.made + 1, producer := s.producer[t := Some(s.made)]), t, Place(th.main, 0, s.made))
    else Go(s, t, Check(|s.tables| - 1, th.n))
  }

  function Cased(s: State, t: nat): State
    requires Typed(s) && t < |s.threads| && s.threads[t].PlaceCas?
  {
    var th := s.threads[t];
    assert PointOk(s, th) && TableTyped(s.tables, th.main);
    var q := Slot(s.hash[t], th.k, Capacity(s.tables[th.main]));
    if s.tables[th.main].entries[q].Free? then
      Go(SetEntry(s, th.main, q, Taken(t, th.k, None)), t, PlaceStore(th.main, th.k, th.value))
    else Go(s, t, Place(th.main, th.k + 1, th.value))
  }

  function Stored(s: State, t: nat): State
    requires Typed(s) && t < |s.threads| && s.threads[t].PlaceStore?
  {
    var th := s.threads[t];
    assert PointOk(s, th) && TableTyped(s.tables, th.main);
    var q := Slot(s.hash[t], th.k, Capacity(s.tables[th.main]));
    var e := s.tables[th.main].entries[q];
    var e' := if e.Taken? then e.(value := Some(th.value)) else e;
    Go(SetEntry(s, th.main, q, e'), t, Idle(Some(th.value)))
  }

  /** The next step of thread t. */
  function Step(s: State, t: nat): State
    requires Typed(s) && t < |s.threads|
  {
    var th := s.threads[t];
    assert PointOk(s, th);
    match th
    case Idle(_) => Go(s, t, Search(|s.tables| - 1, |s.tables| - 1, 0))
    case Search(_, _, _) => Searched(s, t)
    case Count(_) => Counted(s, t)
    case Check(_, _) => Checked(s, t)
    case Reload(_) => Reloaded(s, t)
    case Allocate(_, _) => Allocated(s, t)
    case Unlock(m, n) => Go(s.(locked := false), t, Fit(m, n))
    case Fit(_, _) => Fitted(s, t)
    case Place(m, k, v) =>
      Go(s, t, if Probe(s, t, m, k).Free? then PlaceCas(m, k, v) else Place(m, k + 1, v))
    case PlaceCas(_, _, _) => Cased(s, t)
    case PlaceStore(_, _, _) => Stored(s, t)
  }

  ghost predicate Next(s: State, s': State) {
    Typed(s) && exists t: nat :: t < |s.threads| && s' == Step(s, t)
  }

  ghost predicate Run(run: seq<State>) {
    && |run| > 0 && Init(run[0])
    && forall i, j | 0 <= i < j < |run| && j == i + 1 :: Next(run[i], run[j])
  }

  // ---- the invariant ----

  /** Tables are chained newest to oldest and at least double. */
  ghost predicate Chained(tables: seq<Table>) {
    && |tables| > 0
    && (forall i | 0 <= i < |tables| :: Linked(tables, i))
    && (forall i, j | 0 <= i < j < |tables| :: Capacity(tables[i]) < Capacity(tables[j]))
  }

  ghost predicate Linked(tables: seq<Table>, i: nat)
    requires i < |tables|
  {
    && tables[i].prev == (if i == 0 then None else Some(i - 1))
    && Capacity(tables[i]) >= INITIAL_SIZE && PowerOfTwo(Capacity(tables[i]))
  }

  ghost predicate PowerOfTwo(c: nat) { exists e: nat :: c == Pow2(e) }

  ghost predicate Distinct(v: seq<Option<nat>>, bound: nat) {
    && (forall t | 0 <= t < |v| && v[t].Some? :: v[t].value < bound)
    && (forall t, u | 0 <= t < u < |v| && v[t].Some? && v[u].Some? :: v[t].value != v[u].value)
  }

  /** Each key is there on account of an id whose count fits the table, and was placed after its probes. */
  ghost predicate KeyOk(s: State, b: Table, q: nat)
    requires q < Capacity(b) && b.entries[q].Taken?
  {
    var e := b.entries[q];
    && e.id < |s.hash| && e.id < |s.ordinal|
    && s.ordinal[e.id].Some? && s.ordinal[e.id].value < Room(b)
    && e.probes < Capacity(b) && q == Slot(s.hash[e.id], e.probes, Capacity(b))
    && Probed(b, s.hash[e.id], e.probes)
  }

  /** A value is missing only while its thread is about to store it. */
  ghost predicate ValueOk(s: State, i: nat, e: Entry)
    requires e.Taken?
  {
    if e.value.Some? then e.id < |s.producer| && s.producer[e.id] == e.value
    else e.id < |s.threads| && s.threads[e.id].PlaceStore? && s.threads[e.id].main == i && s.threads[e.id].k == e.probes
  }

  /** The first k slots probed for this hash are taken. */
  ghost predicate Probed(b: Table, h: nat, k: nat) {
    forall p | 0 <= p < k && Capacity(b) > 0 :: b.entries[Slot(h, p, Capacity(b))].Taken?
  }

  /** No key is in the table twice. */
  ghost predicate Once(b: Table) {
    forall p, q | 0 <= p < q < Capacity(b) && b.entries[p].Taken? && b.entries[q].Taken? ::
      b.entries[p].id != b.entries[q].id
  }

  ghost predicate TableOk(s: State, i: nat)
    requires i < |s.tables|
  {
    var b := s.tables[i];
    && Once(b)
    && (forall q | 0 <= q < Capacity(b) && b.entries[q].Taken? :: KeyOk(s, b, q))
    && (forall q | 0 <= q < Capacity(b) && b.entries[q].Taken? :: ValueOk(s, i, b.entries[q]))
  }

  ghost predicate Absent(b: Table, t: nat) {
    forall q | 0 <= q < Capacity(b) && b.entries[q].Taken? :: b.entries[q].id != t
  }

  ghost predicate AbsentFrom(tables: seq<Table>, lo: int, t: nat) {
    forall i | 0 <= i < |tables| && lo <= i :: Absent(tables[i], t)
  }

  /** An id that has drawn a count is in some table. */
  ghost predicate Settled(s: State, t: nat)
    requires t < |s.ordinal|
  {
    s.ordinal[t].Some? ==> exists i :: 0 <= i < |s.tables| && !Absent(s.tables[i], t)
  }

  ghost predicate Waiting(s: State, t: nat, n: nat)
    requires t < |s.ordinal| && t < |s.producer|
  {
    AbsentFrom(s.tables, 0, t) && s.ordinal[t] == Some(n) && s.producer[t] == None
  }

  ghost predicate Placing(s: State, t: nat, m: nat, k: nat, v: nat)
    requires t < |s.ordinal| && t < |s.producer| && t < |s.hash|
  {
    && m < |s.tables| && k < Capacity(s.tables[m]) && Probed(s.tables[m], s.hash[t], k)
    && AbsentFrom(s.tables, m, t) && s.producer[t] == Some(v)
    && s.ordinal[t].Some? && s.ordinal[t].value < Room(s.tables[m])
  }

  ghost predicate Searching(s: State, t: nat, m: nat, j: nat, k: nat)
    requires t < |s.ordinal| && t < |s.hash|
  {
    && j <= m < |s.tables| && k < Capacity(s.tables[j]) && Probed(s.tables[j], s.hash[t], k)
    && (forall p | 0 <= p < k :: s.tables[j].entries[Slot(s.hash[t], p, Capacity(s.tables[j]))].id != t)
    && AbsentFrom(s.tables, j + 1, t) && Settled(s, t)
  }

  ghost predicate Writing(s: State, t: nat, m: nat, k: nat, v: nat)
    requires t < |s.producer| && t < |s.hash|
  {
    && m < |s.tables| && Capacity(s.tables[m]) > 0 && s.producer[t] == Some(v)
    && s.tables[m].entries[Slot(s.hash[t], k, Capacity(s.tables[m]))] == Taken(t, k, None)
  }

  ghost predicate ThreadOk(s: State, t: nat, th: Thread)
    requires t < |s.ordinal| && t < |s.producer| && t < |s.hash|
  {
    match th
    case Idle(last) => Settled(s, t) && (last.Some? ==> s.producer[t] == last)
    case Search(m, j, k) => Searching(s, t, m, j, k)
    case Count(m) => m < |s.tables| && AbsentFrom(s.tables, 0, t) && s.ordinal[t] == None
    case Reload(n) => Waiting(s, t, n)
    case Allocate(m, n) => m == |s.tables| - 1 && Waiting(s, t, n)
    case Unlock(m, n) => m < |s.tables| && Waiting(s, t, n)
    case Check(m, n) => m < |s.tables| && Waiting(s, t, n)
    case Fit(m, n) => m < |s.tables| && Waiting(s, t, n)
    case Place(m, k, v) => Placing(s, t, m, k, v)
    case PlaceCas(m, k, v) => Placing(s, t, m, k, v)
    case PlaceStore(m, k, v) => Writing(s, t, m, k, v)
  }

  predicate Holds(th: Thread) { th.Reload? || th.Allocate? || th.Unlock? }

  /** The resize flag is a lock. */
  ghost predicate LockOk(locked: bool, threads: seq<Thread>) {
    && (forall t | 0 <= t < |threads| && Holds(threads[t]) :: locked)
    && (forall t, u | 0 <= t < u < |threads| :: !(Holds(threads[t]) && Holds(threads[u])))
  }

  ghost predicate DrawnFirst(ordinal: seq<Option<nat>>, producer: seq<Option<nat>>) {
    && |ordinal| == |producer|
    && (forall t | 0 <= t < |ordinal| && producer[t].Some? :: ordinal[t].Some?)
    && (forall t | 0 <= t < |ordinal| && ordinal[t].Some? :: ordinal[t].value > 0)
  }

  ghost predicate Sized(s: State) {
    |s.hash| == |s.threads| == |s.ordinal| == |s.producer|
  }

  ghost predicate Inv(s: State) {
    && Sized(s) && Chained(s.tables) && LockOk(s.locked, s.threads)
    && Distinct(s.ordinal, s.count + 1) && Distinct(s.producer, s.made) && DrawnFirst(s.ordinal, s.producer)
    && (forall i | 0 <= i < |s.tables| :: TableOk(s, i))
    && (forall t | 0 <= t < |s.threads| :: ThreadOk(s, t, s.threads[t]))
  }

  lemma InvIsTyped(s: State)
    requires Inv(s)
    ensures Typed(s)
  {
    forall i | 0 <= i < |s.tables| ensures TableTyped(s.tables, i) {
      assert Linked(s.tables, i);
    }
    forall t | 0 <= t < |s.threads| ensures PointOk(s, s.threads[t]) {
      assert ThreadOk(s, t, s.threads[t]);
    }
  }

  // ---- a probe always meets a free slot before the room is used up ----

  lemma {:induction false} Pigeonhole(v: seq<nat>, bound: nat)
    requires forall i | 0 <= i < |v| :: 0 < v[i] < bound
    requires forall i, j | 0 <= i < j < |v| :: v[i] != v[j]
    ensures v == [] || |v| < bound
    decreases bound
  {
    if v != [] {
      assert 0 < v[0] < bound;
      if i :| 0 <= i < |v| && v[i] == bound - 1 {
        Pigeonhole(v[..i] + v[i + 1..], bound - 1);
      } else {
        Pigeonhole(v, bound - 1);
      }
    }
  }

  /** Facts about the keys of one table that the counting argument uses. */
  ghost predicate Counts(b: Table, ordinal: seq<Option<nat>>) {
    && Once(b)
    && (forall q | 0 <= q < Capacity(b) && b.entries[q].Taken? ::
         b.entries[q].id < |ordinal| && ordinal[b.entries[q].id].Some? && 0 < ordinal[b.entries[q].id].value < Room(b))
    && (forall t, u | 0 <= t < u < |ordinal| && ordinal[t].Some? && ordinal[u].Some? ::
         ordinal[t].value != ordinal[u].value)
  }

  lemma InvCounts(s: State, i: nat)
    requires Inv(s) && i < |s.tables|
    ensures Counts(s.tables[i], s.ordinal)
  {
    assert TableOk(s, i);
    var b := s.tables[i];
    forall q | 0 <= q < Capacity(b) && b.entries[q].Taken?
      ensures b.entries[q].id < |s.ordinal| && s.ordinal[b.entries[q].id].Some?
      ensures 0 < s.ordinal[b.entries[q].id].value < Room(b)
    {
      assert KeyOk(s, b, q);
    }
  }

  lemma ProbesFit(b: Table, ordinal: seq<Option<nat>>, h: nat, k: nat)
    requires Counts(b, ordinal) && Probed(b, h, k) && Capacity(b) > 0 && k <= Capacity(b)
    ensures k == 0 || k < Room(b)
  {
    var c := Capacity(b);
    var ids := seq(k, p requires 0 <= p < k => b.entries[Slot(h, p, c)].id);
    forall p, q | 0 <= p < q < k ensures ids[p] != ids[q] {
      if Slot(h, p, c) == Slot(h, q, c) {
        ModInjective(h + p, h + q, c);
      }
    }
    OrdinalsFit(ids, ordinal, Room(b));
  }

  lemma OrdinalsFit(ids: seq<nat>, ordinal: seq<Option<nat>>, room: nat)
    requires forall p, q | 0 <= p < q < |ids| :: ids[p] != ids[q]
    requires forall p | 0 <= p < |ids| :: ids[p] < |ordinal| && ordinal[ids[p]].Some? && 0 < ordinal[ids[p]].value < room
    requires forall t, u | 0 <= t < u < |ordinal| && ordinal[t].Some? && ordinal[u].Some? ::
               ordinal[t].value != ordinal[u].value
    ensures ids == [] || |ids| < room
  {
    var v := seq(|ids|, p requires 0 <= p < |ids| => ordinal[ids[p]].value);
    Pigeonhole(v, room);
  }

  // ---- what a step of one thread leaves the others ----

  /** Keys are never removed or moved, and new ones are t's. */
  ghost predicate Extends(b: Table, b': Table, t: nat) {
    && Capacity(b) == Capacity(b')
    && (forall q | 0 <= q < Capacity(b) && b.entries[q].Taken? ::
         b'.entries[q].Taken? && b'.entries[q].id == b.entries[q].id && b'.entries[q].probes == b.entries[q].probes
         && (b.entries[q].id != t ==> b'.entries[q] == b.entries[q]))
    && (forall q | 0 <= q < Capacity(b) && b.entries[q].Free? && b'.entries[q].Taken? :: b'.entries[q].id == t)
  }

  ghost predicate Grows(s: State, s': State, t: nat) {
    && Sized(s) && Sized(s') && s'.hash == s.hash && |s.tables| <= |s'.tables|
    && (forall i | 0 <= i < |s.tables| :: Extends(s.tables[i], s'.tables[i], t))
    && (forall i, q | |s.tables| <= i < |s'.tables| && 0 <= q < Capacity(s'.tables[i]) :: s'.tables[i].entries[q].Free?)
    && (forall u | 0 <= u < |s.ordinal| && u != t :: s'.ordinal[u] == s.ordinal[u] && s'.producer[u] == s.producer[u])
  }

  lemma AbsentKept(s: State, s': State, t: nat, u: nat, lo: int)
    requires Grows(s, s', t) && u != t && AbsentFrom(s.tables, lo, u)
    ensures AbsentFrom(s'.tables, lo, u)
  {
    forall i | 0 <= i < |s'.tables| && lo <= i ensures Absent(s'.tables[i], u) {
      if i < |s.tables| {
        assert Absent(s.tables[i], u);
      }
    }
  }

  lemma SettledKept(s: State, s': State, t: nat, u: nat)
    requires Grows(s, s', t) && u != t && u < |s.ordinal| && Settled(s, u)
    ensures Settled(s', u)
  {
    if s.ordinal[u].Some? {
      var i :| 0 <= i < |s.tables| && !Absent(s.tables[i], u);
      var q :| 0 <= q < Capacity(s.tables[i]) && s.tables[i].entries[q].Taken? && s.tables[i].entries[q].id == u;
      assert s'.tables[i].entries[q].Taken? && s'.tables[i].entries[q].id == u;
      assert !Absent(s'.tables[i], u);
    }
  }

  lemma ProbedKept(b: Table, b': Table, t: nat, h: nat, k: nat)
    requires Extends(b, b', t) && Probed(b, h, k)
    ensures Probed(b', h, k)
  {
  }

  lemma SearchKept(s: State, s': State, t: nat, u: nat, m: nat, j: nat, k: nat)
    requires Grows(s, s', t) && u != t && u < |s.ordinal| && Searching(s, u, m, j, k)
    ensures Searching(s', u, m, j, k)
  {
    AbsentKept(s, s', t, u, j + 1);
    SettledKept(s, s', t, u);
    ProbedKept(s.tables[j], s'.tables[j], t, s.hash[u], k);
  }

  lemma PlaceKept(s: State, s': State, t: nat, u: nat, m: nat, k: nat, v: nat)
    requires Grows(s, s', t) && u != t && u < |s.ordinal| && Placing(s, u, m, k, v)
    ensures Placing(s', u, m, k, v)
  {
    AbsentKept(s, s', t, u, m);
    ProbedKept(s.tables[m], s'.tables[m], t, s.hash[u], k);
  }

  lemma ThreadKept(s: State, s': State, t: nat, u: nat, th: Thread)
    requires Grows(s, s', t) && u != t && u < |s.ordinal| && ThreadOk(s, u, th)
    requires |s'.tables| == |s.tables| || !th.Allocate?
    ensures ThreadOk(s', u, th)
  {
    match th
    case Search(m, j, k) => SearchKept(s, s', t, u, m, j, k);
    case Place(m, k, v) => PlaceKept(s, s', t, u, m, k, v);
    case PlaceCas(m, k, v) => PlaceKept(s, s', t, u, m, k, v);
    case PlaceStore(m, k, v) =>
    case Idle(_) => SettledKept(s, s', t, u);
    case _ => AbsentKept(s, s', t, u, 0);
  }

  lemma OthersKept(s: State, s': State, t: nat)
    requires Grows(s, s', t) && t < |s.threads|
    requires forall u | 0 <= u < |s.threads| && u != t :: s'.threads[u] == s.threads[u]
    requires forall u | 0 <= u < |s.threads| :: ThreadOk(s, u, s.threads[u])
    requires ThreadOk(s', t, s'.threads[t])
    requires |s'.tables| == |s.tables| || forall u | 0 <= u < |s.threads| && u != t :: !s.threads[u].Allocate?
    ensures forall u | 0 <= u < |s'.threads| :: ThreadOk(s', u, s'.threads[u])
  {
    forall u | 0 <= u < |s'.threads| ensures ThreadOk(s', u, s'.threads[u]) {
      if u != t {
        ThreadKept(s, s', t, u, s.threads[u]);
      }
    }
  }

  /** A table nobody wrote to stays in order while counts are drawn, producers are made and threads move. */
  lemma TableKept(s: State, s': State, i: nat)
    requires i < |s.tables| && TableOk(s, i) && Sized(s) && Sized(s') && s'.hash == s.hash
    requires i < |s'.tables| && s'.tables[i] == s.tables[i]
    requires forall u | 0 <= u < |s.ordinal| && s.ordinal[u].Some? :: s'.ordinal[u] == s.ordinal[u]
    requires forall u | 0 <= u < |s.producer| && s.producer[u].Some? :: s'.producer[u] == s.producer[u]
    requires forall u | 0 <= u < |s.threads| && s.threads[u].PlaceStore? && s.threads[u].main == i ::
               s'.threads[u] == s.threads[u]
    ensures TableOk(s', i)
  {
    var b := s.tables[i];
    forall q | 0 <= q < Capacity(b) && b.entries[q].Taken? ensures KeyOk(s', b, q) {
      assert KeyOk(s, b, q);
    }
    forall q | 0 <= q < Capacity(b) && b.entries[q].Taken? ensures ValueOk(s', i, b.entries[q]) {
      assert ValueOk(s, i, b.entries[q]);
    }
  }

  lemma TablesKept(s: State, s': State)
    requires Sized(s) && Sized(s') && s'.hash == s.hash && s'.tables == s.tables
    requires forall i | 0 <= i < |s.tables| :: TableOk(s, i)
    requires forall u | 0 <= u < |s.ordinal| && s.ordinal[u].Some? :: s'.ordinal[u] == s.ordinal[u]
    requires forall u | 0 <= u < |s.producer| && s.producer[u].Some? :: s'.producer[u] == s.producer[u]
    requires forall u | 0 <= u < |s.threads| && s.threads[u].PlaceStore? :: s'.threads[u] == s.threads[u]
    ensures forall i | 0 <= i < |s'.tables| :: TableOk(s', i)
  {
    forall i | 0 <= i < |s'.tables| ensures TableOk(s', i) {
      TableKept(s, s', i);
    }
  }

  lemma LockKept(locked: bool, threads: seq<Thread>, locked': bool, t: nat, th: Thread)
    requires LockOk(locked, threads) && t < |threads|
    requires Holds(th) ==> locked' && (Holds(threads[t]) || !locked)
    requires !locked' ==> !locked || Holds(threads[t])
    ensures LockOk(locked', threads[t := th])
  {
  }

  /** Steps that change only thread t's program point, and perhaps the lock. */
  lemma MoveStep(s: State, s': State, t: nat, locked: bool, th: Thread)
    requires Inv(s) && t < |s.threads| && !s.threads[t].PlaceStore?
    requires s' == Go(s.(locked := locked), t, th) && ThreadOk(s, t, th)
    requires LockOk(locked, s'.threads)
    ensures Inv(s')
  {
    OthersMove(s, s', t, th);
    TablesKept(s, s');
  }

  lemma OthersMove(s: State, s': State, t: nat, th: Thread)
    requires Sized(s) && t < |s.threads| && ThreadOk(s, t, th)
    requires forall u | 0 <= u < |s.threads| :: ThreadOk(s, u, s.threads[u])
    requires s' == s.(threads := s.threads[t := th], locked := s'.locked)
    ensures forall u | 0 <= u < |s'.threads| :: ThreadOk(s', u, s'.threads[u])
  {
    forall u | 0 <= u < |s'.threads| ensures ThreadOk(s', u, s'.threads[u]) {
      SameData(s, s', u, s'.threads[u]);
    }
  }

  lemma SameData(s: State, s': State, u: nat, th: Thread)
    requires u < |s.ordinal| && u < |s.producer| && u < |s.hash| && ThreadOk(s, u, th)
    requires s'.hash == s.hash && s'.tables == s.tables && s'.ordinal == s.ordinal && s'.producer == s.producer
    ensures ThreadOk(s', u, th)
  {
  }

  // ---- each step ----

  /** A free slot on an id's probe path shows the id is not in the table. */
  lemma FreeMeansAbsent(s: State, j: nat, t: nat, k: nat)
    requires j < |s.tables| && t < |s.hash| && TableOk(s, j) && Capacity(s.tables[j]) > 0
    requires s.tables[j].entries[Slot(s.hash[t], k, Capacity(s.tables[j]))].Free?
    requires Probed(s.tables[j], s.hash[t], k)
    requires forall p | 0 <= p < k :: s.tables[j].entries[Slot(s.hash[t], p, Capacity(s.tables[j]))].id != t
    ensures Absent(s.tables[j], t)
  {
    var b := s.tables[j];
    forall q | 0 <= q < Capacity(b) && b.entries[q].Taken? ensures b.entries[q].id != t {
      assert KeyOk(s, b, q);
    }
  }

  lemma RoomBelow(s: State, i: nat)
    requires Chained(s.tables) && i < |s.tables|
    ensures 0 < Room(s.tables[i]) < Capacity(s.tables[i])
    ensures forall j | i < j < |s.tables| :: Room(s.tables[i]) <= Room(s.tables[j])
  {
    assert Linked(s.tables, i);
  }

  lemma SearchFails(s: State, s': State, t: nat)
    requires Inv(s) && Typed(s) && t < |s.threads| && s.threads[t].Search?
    requires Probe(s, t, s.threads[t].table, s.threads[t].k).Free?
    requires s' == Searched(s, t)
    ensures Inv(s')
  {
    var th := s.threads[t];
    assert ThreadOk(s, t, th) && Linked(s.tables, th.table);
    FreeMeansAbsent(s, th.table, t, th.k);
    assert AbsentFrom(s.tables, th.table, t);
    if th.table > 0 {
      assert Linked(s.tables, th.table - 1);
      MoveStep(s, s', t, s.locked, Search(th.main, th.table - 1, 0));
    } else {
      MoveStep(s, s', t, s.locked, Count(th.main));
    }
  }

  lemma SearchGoesOn(s: State, s': State, t: nat)
    requires Inv(s) && Typed(s) && t < |s.threads| && s.threads[t].Search?
    requires var e := Probe(s, t, s.threads[t].table, s.threads[t].k); e.Taken? && e.id != t
    requires s' == Searched(s, t)
    ensures Inv(s')
  {
    var th := s.threads[t];
    assert ThreadOk(s, t, th);
    NextProbe(s, th.table, t, th.k);
    MoveStep(s, s', t, s.locked, Search(th.main, th.table, th.k + 1));
  }

  lemma NextProbe(s: State, j: nat, t: nat, k: nat)
    requires Inv(s) && j < |s.tables| && t < |s.hash| && k < Capacity(s.tables[j])
    requires Probed(s.tables[j], s.hash[t], k)
    requires s.tables[j].entries[Slot(s.hash[t], k, Capacity(s.tables[j]))].Taken?
    ensures Probed(s.tables[j], s.hash[t], k + 1) && k + 1 < Room(s.tables[j]) < Capacity(s.tables[j])
  {
    InvCounts(s, j);
    assert Probed(s.tables[j], s.hash[t], k + 1);
    ProbesFit(s.tables[j], s.ordinal, s.hash[t], k + 1);
    RoomBelow(s, j);
  }

  lemma SearchSucceeds(s: State, s': State, t: nat)
    requires Inv(s) && Typed(s) && t < |s.threads| && s.threads[t].Search?
    requires var e := Probe(s, t, s.threads[t].table, s.threads[t].k); e.Taken? && e.id == t
    requires s' == Searched(s, t)
    ensures Inv(s')
  {
    var th := s.threads[t];
    var b := s.tables[th.table];
    var q := Slot(s.hash[t], th.k, Capacity(b));
    assert ThreadOk(s, t, th) && TableOk(s, th.table);
    assert KeyOk(s, b, q) && ValueOk(s, th.table, b.entries[q]);
    if th.table == th.main {
      MoveStep(s, s', t, s.locked, Idle(b.entries[q].value));
    } else {
      RoomBelow(s, th.table);
      RoomBelow(s, th.main);
      MoveStep(s, s', t, s.locked, Place(th.main, 0, b.entries[q].value.value));
    }
  }

  lemma IdleKeepsInv(s: State, s': State, t: nat)
    requires Inv(s) && Typed(s) && t < |s.threads| && s.threads[t].Idle?
    requires s' == Step(s, t)
    ensures Inv(s')
  {
    var m := |s.tables| - 1;
    assert ThreadOk(s, t, s.threads[t]) && Linked(s.tables, m);
    MoveStep(s, s', t, s.locked, Search(m, m, 0));
  }

  lemma CountKeepsInv(s: State, s': State, t: nat)
    requires Inv(s) && Typed(s) && t < |s.threads| && s.threads[t].Count?
    requires s' == Counted(s, t)
    ensures Inv(s')
  {
    assert ThreadOk(s, t, s.threads[t]);
    OthersKept(s, s', t);
    TablesKept(s, s');
  }

  lemma CheckKeepsInv(s: State, s': State, t: nat)
    requires Inv(s) && Typed(s) && t < |s.threads| && s.threads[t].Check?
    requires s' == Checked(s, t)
    ensures Inv(s')
  {
    assert ThreadOk(s, t, s.threads[t]);
    MoveStep(s, s', t, s'.locked, s'.threads[t]);
  }

  lemma LockMovesKeepInv(s: State, s': State, t: nat)
    requires Inv(s) && Typed(s) && t < |s.threads| && (s.threads[t].Reload? || s.threads[t].Unlock?)
    requires s' == Step(s, t)
    ensures Inv(s')
  {
    assert ThreadOk(s, t, s.threads[t]);
    MoveStep(s, s', t, s'.locked, s'.threads[t]);
  }

  lemma {:induction false} GrownPower(c: nat, n: nat)
    requires c >= 2 && PowerOfTwo(c)
    ensures PowerOfTwo(Grown(c, n))
    decreases if n >= c / 2 then n - c / 2 + 1 else 0
  {
    if n >= c / 2 {
      var e: nat :| c == Pow2(e);
      assert 2 * c == Pow2(e + 1);
      GrownPower(2 * c, n);
    }
  }

  lemma AllocateChains(s: State, c: nat)
    requires Chained(s.tables) && c > Capacity(s.tables[|s.tables| - 1]) && PowerOfTwo(c)
    ensures Chained(s.tables + [Fresh(c, |s.tables| - 1)])
  {
    var tables := s.tables + [Fresh(c, |s.tables| - 1)];
    assert Linked(s.tables, |s.tables| - 1);
    forall i | 0 <= i < |tables| ensures Linked(tables, i) {
      assert i < |s.tables| ==> Linked(s.tables, i);
    }
  }

  lemma AllocateKeepsInv(s: State, s': State, t: nat)
    requires Inv(s) && Typed(s) && t < |s.threads| && s.threads[t].Allocate?
    requires s' == Allocated(s, t)
    ensures Inv(s')
  {
    var th := s.threads[t];
    var c := Capacity(s.tables[th.main]);
    assert ThreadOk(s, t, th) && Linked(s.tables, th.main);
    assert PowerOfTwo(2 * c) by {
      var e: nat :| c == Pow2(e);
      assert 2 * c == Pow2(e + 1);
    }
    GrownPower(2 * c, th.n);
    AllocateChains(s, Grown(2 * c, th.n));
    OthersKept(s, s', t);
    AllocateTables(s, s', t);
  }

  lemma AllocateTables(s: State, s': State, t: nat)
    requires Sized(s) && Typed(s) && t < |s.threads| && s.threads[t].Allocate?
    requires forall i | 0 <= i < |s.tables| :: TableOk(s, i)
    requires s' == Allocated(s, t)
    ensures forall i | 0 <= i < |s'.tables| :: TableOk(s', i)
  {
    forall i | 0 <= i < |s'.tables| ensures TableOk(s', i) {
      if i < |s.tables| {
        TableKept(s, s', i);
      }
    }
  }

  lemma FitCreates(s: State, s': State, t: nat)
    requires Inv(s) && Typed(s) && t < |s.threads| && s.threads[t].Fit?
    requires s.threads[t].n < Room(s.tables[s.threads[t].main])
    requires s' == Fitted(s, t)
    ensures Inv(s')
  {
    var th := s.threads[t];
    assert ThreadOk(s, t, th) && Linked(s.tables, th.main);
    assert Placing(s', t, th.main, 0, s.made);
    OthersKept(s, s', t);
    TablesKept(s, s');
  }

  lemma FitKeepsInv(s: State, s': State, t: nat)
    requires Inv(s) && Typed(s) && t < |s.threads| && s.threads[t].Fit?
    requires s' == Fitted(s, t)
    ensures Inv(s')
  {
    var th := s.threads[t];
    assert ThreadOk(s, t, th);
    if th.n < Room(s.tables[th.main]) {
      FitCreates(s, s', t);
    } else {
      MoveStep(s, s', t, s.locked, Check(|s.tables| - 1, th.n));
    }
  }

  lemma PlaceKeepsInv(s: State, s': State, t: nat)
    requires Inv(s) && Typed(s) && t < |s.threads| && s.threads[t].Place?
    requires s' == Step(s, t)
    ensures Inv(s')
  {
    var th := s.threads[t];
    assert ThreadOk(s, t, th);
    if Probe(s, t, th.main, th.k).Taken? {
      NextProbe(s, th.main, t, th.k);
    }
    MoveStep(s, s', t, s.locked, s'.threads[t]);
  }

  lemma CasFails(s: State, s': State, t: nat)
    requires Inv(s) && Typed(s) && t < |s.threads| && s.threads[t].PlaceCas?
    requires Probe(s, t, s.threads[t].main, s.threads[t].k).Taken?
    requires s' == Cased(s, t)
    ensures Inv(s')
  {
    var th := s.threads[t];
    assert ThreadOk(s, t, th);
    NextProbe(s, th.main, t, th.k);
    MoveStep(s, s', t, s.locked, Place(th.main, th.k + 1, th.value));
  }

  /** Writing one slot of table m, whose key is t's. */
  ghost predicate Writes(s: State, s': State, t: nat, m: nat, q: nat, e: Entry) {
    && t < |s.threads| && m < |s.tables| && q < Capacity(s.tables[m]) && e.Taken? && e.id == t
    && (s.tables[m].entries[q].Free? || (s.tables[m].entries[q].id == t && s.tables[m].entries[q].probes == e.probes))
    && s' == SetEntry(s, m, q, e).(threads := s'.threads) && |s'.threads| == |s.threads|
    && (forall u | 0 <= u < |s.threads| && u != t :: s'.threads[u] == s.threads[u])
  }

  lemma WriteGrows(s: State, s': State, t: nat, m: nat, q: nat, e: Entry)
    requires Sized(s) && Writes(s, s', t, m, q, e)
    ensures Grows(s, s', t)
  {
  }

  lemma WriteChains(s: State, s': State, t: nat, m: nat, q: nat, e: Entry)
    requires Chained(s.tables) && Writes(s, s', t, m, q, e)
    ensures Chained(s'.tables)
  {
    forall i | 0 <= i < |s'.tables| ensures Linked(s'.tables, i) {
      assert Linked(s.tables, i);
    }
  }

  /** The written table stays in order. */
  lemma WriteTable(s: State, s': State, t: nat, m: nat, q: nat, e: Entry)
    requires Sized(s) && Writes(s, s', t, m, q, e) && TableOk(s, m)
    requires forall p | 0 <= p < Capacity(s.tables[m]) && p != q && s.tables[m].entries[p].Taken? ::
               s.tables[m].entries[p].id != t
    requires KeyOk(s', s'.tables[m], q) && ValueOk(s', m, e)
    ensures TableOk(s', m)
  {
    var b, b' := s.tables[m], s'.tables[m];
    forall p | 0 <= p < Capacity(b') && b'.entries[p].Taken? ensures KeyOk(s', b', p) && ValueOk(s', m, b'.entries[p]) {
      if p != q {
        assert KeyOk(s, b, p) && ValueOk(s, m, b.entries[p]);
        ProbedKept(b, b', t, s.hash[b.entries[p].id], b.entries[p].probes);
      }
    }
  }

  lemma WriteTables(s: State, s': State, t: nat, m: nat, q: nat, e: Entry)
    requires Sized(s) && Writes(s, s', t, m, q, e) && (s.threads[t].PlaceStore? ==> s.threads[t].main == m)
    requires forall i | 0 <= i < |s.tables| :: TableOk(s, i)
    requires TableOk(s', m)
    ensures forall i | 0 <= i < |s'.tables| :: TableOk(s', i)
  {
    forall i | 0 <= i < |s'.tables| ensures TableOk(s', i) {
      if i != m {
        TableKept(s, s', i);
      }
    }
  }

  lemma WriteStep(s: State, s': State, t: nat, m: nat, q: nat, e: Entry)
    requires Inv(s) && Writes(s, s', t, m, q, e) && (s.threads[t].PlaceStore? ==> s.threads[t].main == m)
    requires TableOk(s', m) && ThreadOk(s', t, s'.threads[t])
    requires !Holds(s'.threads[t])
    ensures Inv(s')
  {
    WriteGrows(s, s', t, m, q, e);
    WriteChains(s, s', t, m, q, e);
    WriteTables(s, s', t, m, q, e);
    OthersKept(s, s', t);
    LockKept(s.locked, s.threads, s.locked, t, s'.threads[t]);
    assert s'.threads == s.threads[t := s'.threads[t]];
  }

  lemma CasSucceeds(s: State, s': State, t: nat)
    requires Inv(s) && Typed(s) && t < |s.threads| && s.threads[t].PlaceCas?
    requires Probe(s, t, s.threads[t].main, s.threads[t].k).Free?
    requires s' == Cased(s, t)
    ensures Inv(s')
  {
    var th := s.threads[t];
    var m, k := th.main, th.k;
    assert ThreadOk(s, t, th) && TableOk(s, m);
    var b, b' := s.tables[m], s'.tables[m];
    var q := Slot(s.hash[t], k, Capacity(b));
    var e := Taken(t, k, None);
    assert Writes(s, s', t, m, q, e);
    WriteGrows(s, s', t, m, q, e);
    ProbedKept(b, b', t, s.hash[t], k);
    assert Absent(b, t);
    WriteTable(s, s', t, m, q, e);
    WriteStep(s, s', t, m, q, e);
  }

  lemma StoreKeepsInv(s: State, s': State, t: nat)
    requires Inv(s) && Typed(s) && t < |s.threads| && s.threads[t].PlaceStore?
    requires s' == Stored(s, t)
    ensures Inv(s')
  {
    var th := s.threads[t];
    var m, k := th.main, th.k;
    assert ThreadOk(s, t, th) && TableOk(s, m);
    var b, b' := s.tables[m], s'.tables[m];
    var q := Slot(s.hash[t], k, Capacity(b));
    var e := Taken(t, k, Some(th.value));
    assert KeyOk(s, b, q);
    assert Writes(s, s', t, m, q, e);
    WriteGrows(s, s', t, m, q, e);
    ProbedKept(b, b', t, s.hash[t], k);
    assert !Absent(b', t);
    WriteTable(s, s', t, m, q, e);
    WriteStep(s, s', t, m, q, e);
  }

  lemma ThreadStepKeepsInv(s: State, s': State, t: nat)
    requires Inv(s) && Typed(s) && t < |s.threads|
    requires s' == Step(s, t)
    ensures Inv(s')
  {
    match s.threads[t]
    case Idle(_) => IdleKeepsInv(s, s', t);
    case Search(m, j, k) =>
      if Probe(s, t, j, k).Free? {
        SearchFails(s, s', t);
      } else if Probe(s, t, j, k).id == t {
        SearchSucceeds(s, s', t);
      } else {
        SearchGoesOn(s, s', t);
      }
    case Count(_) => CountKeepsInv(s, s', t);
    case Check(_, _) => CheckKeepsInv(s, s', t);
    case Reload(_) => LockMovesKeepInv(s, s', t);
    case Unlock(_, _) => LockMovesKeepInv(s, s', t);
    case Allocate(_, _) => AllocateKeepsInv(s, s', t);
    case Fit(_, _) => FitKeepsInv(s, s', t);
    case Place(_, _, _) => PlaceKeepsInv(s, s', t);
    case PlaceCas(m, k, _) =>
      if Probe(s, t, m, k).Free? {
        CasSucceeds(s, s', t);
      } else {
        CasFails(s, s', t);
      }
    case PlaceStore(_, _, _) => StoreKeepsInv(s, s', t);
  }

  // ---- runs ----

  lemma InitHasInv(s: State)
    requires Init(s)
    ensures Inv(s)
  {
    assert Pow2(5) == 32 by {
      assert Pow2(0) == 1 && Pow2(1) == 2 && Pow2(2) == 4 && Pow2(3) == 8 && Pow2(4) == 16;
    }
    assert Linked(s.tables, 0);
    forall t | 0 <= t < |s.threads| ensures ThreadOk(s, t, s.threads[t]) {
      assert s.threads[t] == Idle(None) && s.ordinal[t] == None;
    }
  }

  lemma StepKeepsInv(s: State, s': State)
    requires Inv(s) && Next(s, s')
    ensures Inv(s')
  {
    var t: nat :| t < |s.threads| && s' == Step(s, t);
    ThreadStepKeepsInv(s, s', t);
  }

  lemma {:induction false} RunKeepsInv(run: seq<State>, i: nat)
    requires Run(run) && i < |run|
    ensures Inv(run[i])
  {
    if i == 0 {
      InitHasInv(run[0]);
    } else {
      RunKeepsInv(run, i - 1);
      RunStep(run, i);
    }
  }

  lemma RunStep(run: seq<State>, i: nat)
    requires Run(run) && 0 < i < |run| && Inv(run[i - 1])
    ensures Inv(run[i])
  {
    StepKeepsInv(run[i - 1], run[i]);
  }

  /** The ids held by a table. */
  function Ids(entries: seq<Entry>): seq<nat> {
    if entries == [] then []
    else
      var last := entries[|entries| - 1];
      Ids(entries[..|entries| - 1]) + if last.Taken? then [last.id] else []
  }

  lemma {:induction false} IdsAreKeys(b: Table, n: nat, ordinal: seq<Option<nat>>)
    requires Counts(b, ordinal) && n <= Capacity(b)
    ensures forall x | x in Ids(b.entries[..n]) :: exists q | 0 <= q < n :: b.entries[q].Taken? && b.entries[q].id == x
    ensures forall p, q | 0 <= p < q < |Ids(b.entries[..n])| :: Ids(b.entries[..n])[p] != Ids(b.entries[..n])[q]
  {
    if n > 0 {
      IdsAreKeys(b, n - 1, ordinal);
      assert b.entries[..n][..n - 1] == b.entries[..n - 1];
      var before, last := Ids(b.entries[..n - 1]), b.entries[n - 1];
      forall p | 0 <= p < |before| && last.Taken? ensures before[p] != last.id {
        assert before[p] in before;
      }
    }
  }

  /** A table of capacity C never holds 3C/4 or more ids, in any state of any run. */
  lemma NeverFull(run: seq<State>, i: nat, j: nat)
    requires Run(run) && i < |run| && j < |run[i].tables|
    ensures 4 * |Ids(run[i].tables[j].entries)| < 3 * Capacity(run[i].tables[j])
  {
    RunKeepsInv(run, i);
    var s := run[i];
    var b := s.tables[j];
    InvCounts(s, j);
    IdsAreKeys(b, Capacity(b), s.ordinal);
    assert b.entries[..Capacity(b)] == b.entries;
    forall p | 0 <= p < |Ids(b.entries)|
      ensures Ids(b.entries)[p] < |s.ordinal| && s.ordinal[Ids(b.entries)[p]].Some?
      ensures 0 < s.ordinal[Ids(b.entries)[p]].value < Room(b)
    {
      assert Ids(b.entries)[p] in Ids(b.entries);
    }
    OrdinalsFit(Ids(b.entries), s.ordinal, Room(b));
    RoomBelow(s, j);
  }

  /** Every probe loop stops: in any state of any run the slots a thread has passed over number less than
      3C/4, so within that many probes it meets its own key or a free slot. */
  lemma ProbesEnd(run: seq<State>, i: nat, t: nat)
    requires Run(run) && i < |run| && t < |run[i].threads|
    ensures var s := run[i];
            match s.threads[t]
            case Search(_, j, k) => j < |s.tables| && 4 * k < 3 * Capacity(s.tables[j])
            case Place(m, k, _) => m < |s.tables| && 4 * k < 3 * Capacity(s.tables[m])
            case PlaceCas(m, k, _) => m < |s.tables| && 4 * k < 3 * Capacity(s.tables[m])
            case _ => true
  {
    RunKeepsInv(run, i);
    var s := run[i];
    var th := s.threads[t];
    assert ThreadOk(s, t, th);
    if th.Search? || th.Place? || th.PlaceCas? {
      var j := if th.Search? then th.table else th.main;
      InvCounts(s, j);
      ProbesFit(s.tables[j], s.ordinal, s.hash[t], th.k);
      RoomBelow(s, j);
    }
  }

  lemma ProducerStays(s: State, s': State, t: nat)
    requires Inv(s) && Next(s, s') && t < |s.producer| && s.producer[t].Some?
    ensures |s'.producer| == |s.producer| && s'.producer[t] == s.producer[t]
  {
    var u: nat :| u < |s.threads| && s' == Step(s, u);
    assert ThreadOk(s, u, s.threads[u]);
  }

  lemma {:induction false} ProducerNeverChanges(run: seq<State>, i: nat, j: nat, t: nat)
    requires Run(run) && i <= j < |run| && t < |run[i].producer| && run[i].producer[t].Some?
    ensures t < |run[j].producer| && run[j].producer[t] == run[i].producer[t]
    decreases j
  {
    if i < j {
      ProducerNeverChanges(run, i, j - 1, t);
      ProducerStaysAt(run, j, t);
    }
  }

  lemma ProducerStaysAt(run: seq<State>, j: nat, t: nat)
    requires Run(run) && 0 < j < |run| && t < |run[j - 1].producer| && run[j - 1].producer[t].Some?
    ensures t < |run[j].producer| && run[j].producer[t] == run[j - 1].producer[t]
  {
    RunKeepsInv(run, j - 1);
    ProducerStays(run[j - 1], run[j], t);
  }

  /** A call of thread t has returned producer p in this state. */
  ghost predicate Returned(s: State, t: nat, p: nat) {
    t < |s.threads| && s.threads[t] == Idle(Some(p))
  }

  /** Over any number of resizes, all calls of one thread return the same producer, and calls of different
      threads return different producers. */
  lemma OneProducerPerThread(run: seq<State>, i: nat, j: nat, t: nat, u: nat, p: nat, q: nat)
    requires Run(run) && i <= j < |run| && Returned(run[i], t, p) && Returned(run[j], u, q)
    ensures p == q <==> t == u
  {
    RunKeepsInv(run, i);
    RunKeepsInv(run, j);
    assert ThreadOk(run[i], t, run[i].threads[t]) && ThreadOk(run[j], u, run[j].threads[u]);
    ProducerNeverChanges(run, i, j, t);
  }

  /** A thread that creates a producer has none, and its id is in no table. */
  lemma CreatesOnce(run: seq<State>, i: nat, t: nat)
    requires Run(run) && i < |run| && t < |run[i].threads| && run[i].threads[t].Fit?
    ensures t < |run[i].producer| && run[i].producer[t] == None && AbsentFrom(run[i].tables, 0, t)
  {
    RunKeepsInv(run, i);
    assert ThreadOk(run[i], t, run[i].threads[t]);
  }

  /** A thread that has just allocated a table finds room in it, and the table is the newest one. */
  lemma AllocationFits(run: seq<State>, i: nat, t: nat)
    requires Run(run) && i < |run| && Typed(run[i]) && t < |run[i].threads| && run[i].threads[t].Allocate?
    ensures var s' := Allocated(run[i], t);
            var m := |s'.tables| - 1;
            && s'.threads[t] == Unlock(m, run[i].threads[t].n) && run[i].threads[t].n < Room(s'.tables[m])
            && s'.tables[m].prev == Some(|run[i].tables| - 1)
            && Capacity(s'.tables[m]) >= 2 * Capacity(run[i].tables[|run[i].tables| - 1])
  {
    RunKeepsInv(run, i);
    assert ThreadOk(run[i], t, run[i].threads[t]);
  }

  /** The loop that picks the capacity of a new table. */
  method NewCapacity(capacity: nat, newCount: nat) returns (c: nat)
    requires capacity >= 1
    ensures c == Grown(2 * capacity, newCount)
    ensures newCount < c / 2 && (c == 2 * capacity || newCount >= c / 4)
  {
    c := capacity * 2;
    while newCount >= c / 2
      invariant c >= 2 * capacity && Grown(c, newCount) == Grown(2 * capacity, newCount)
      invariant c == 2 * capacity || newCount >= c / 4
      decreases newCount - c / 2
    {
      c := c * 2;
    }
  }
}
