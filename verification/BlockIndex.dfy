/**
  The growing circular index that maps element indices to blocks in an ImplicitProducer, with its
  single producer (insert_block_index_entry, rewind_block_index_tail, new_block_index, enqueue) and
  any number of consumers that look blocks up, empty them and release them out of order
  (get_block_index_index_for_index, dequeue, dequeue_bulk, Block::set_empty, Block::set_many_empty).

  Every load or store of a shared variable is one step.  Old headers stay readable for ever; they
  share their entries with the newer ones.  A single dequeue is a claim of one index.
 */
module BlockIndex {
  import opened Wrappers
  import opened Counting
  import opened CircularIndex
  import opened ModArith

  const BLOCK_SIZE: nat := 32
  const INVALID_BLOCK_BASE: nat := 1
  /** log2 of IMPLICIT_INITIAL_INDEX_SIZE, and of the largest capacity that divides 2^64 / BLOCK_SIZE. */
  const INITIAL_LOG: nat := 5
  const MAX_LOG: nat := 59

  /** One index entry; a key of None stands for INVALID_BLOCK_BASE, a value of None for nullptr. */
  datatype Entry = Entry(key: Option<nat>, value: Option<nat>)

  /** A published header.  `index` holds entry pointers by slot; `pos` (its inverse) and `phase`
      (block number n belongs in slot (n - phase) % capacity) are auxiliary. */
  datatype Header = Header(tail: nat, index: seq<nat>, pos: seq<nat>, phase: int)

  datatype Producer =
    | Ready
    | KeyStored(slot: nat)
    | TailStored(slot: nat)
    | Rewound(slot: nat)

  datatype Stage =
    | Claimed
    | HasHeader(h: nat)
    | HasTail(h: nat, tail: nat)
    | HasTailKey(h: nat, tail: nat, base: nat)
    | Walking(h: nat, slot: nat)
    | Reading(h: nat, slot: nat, block: Option<nat>)
    | Releasing(h: nat, slot: nat, number: nat)

  /** A consumer still owing indices lo .. hi. */
  datatype Consumer = Consumer(lo: nat, hi: nat, stage: Stage)

  datatype Life = Live | Draining(drainer: nat) | Released

  /** History of block number n: the entry and the memory block it was given. */
  datatype Placement = Placement(home: nat, block: nat, life: Life)

  /** Shared memory (entries, headers, cells, per-block counters, head, published items) plus the
      auxiliary history: where each block was placed, who claimed each index, which are emptied. */
  datatype State<T> = State(
    entries: seq<Entry>,
    headers: seq<Header>,
    producer: Producer,
    items: seq<T>,
    cells: map<(nat, nat), T>,
    dequeued: map<nat, nat>,
    head: nat,
    consumers: seq<Consumer>,
    oldest: nat,
    placed: seq<Placement>,
    gone: seq<bool>,
    holder: seq<nat>)

  datatype Action<T> =
    | StoreKey
    | Grow(garbage: seq<Option<nat>>)
    | StoreTail
    | RewindTail
    | ClearValue
    | StoreBlock(block: nat)
    | Enqueue(x: T)
    | Claim(count: nat)
    | ReadHeader(c: nat)
    | ReadTail(c: nat)
    | ReadTailKey(c: nat)
    | Locate(c: nat)
    | LoadBlock(c: nat)
    | SetEmpty(c: nat)
    | ReleaseBlock(c: nat)

  // ---- steps ----

  function Identity(n: nat): seq<nat> { seq(n, i => i) }

  predicate Init<T>(s: State<T>) {
    && |s.entries| == 32 && (forall e | 0 <= e < 32 :: s.entries[e].key.None?)
    && s.headers == [Header(31, Identity(32), Identity(32), 0)]
    && s.producer == Ready && s.items == [] && s.head == 0 && s.consumers == []
    && s.oldest == 0 && s.placed == [] && s.gone == [] && s.holder == []
  }

  function Last<T>(s: seq<T>): T
    requires |s| > 0
  {
    s[|s| - 1]
  }

  predicate SlotsInRange(hd: Header, count: nat) {
    |hd.index| > 0 && hd.tail < |hd.index| && forall i | 0 <= i < |hd.index| :: hd.index[i] < count
  }

  /** Well-typed states: every pointer the steps follow is in range. */
  predicate Typed<T>(s: State<T>) {
    && |s.headers| > 0
    && (forall h | 0 <= h < |s.headers| :: SlotsInRange(s.headers[h], |s.entries|))
    && (!s.producer.Ready? ==> s.producer.slot < |Last(s.headers).index|)
    && (forall c | 0 <= c < |s.consumers| :: StageTyped(s, s.consumers[c].stage))
  }

  predicate StageTyped<T>(s: State<T>, st: Stage) {
    && (!st.Claimed? ==> st.h < |s.headers|)
    && (st.HasTail? || st.HasTailKey? ==> st.tail < |s.headers[st.h].index|)
    && (st.Walking? || st.Reading? || st.Releasing? ==> st.slot < |s.headers[st.h].index|)
    && (st.Releasing? ==> st.number < |s.placed|)
  }

  function NextSlot(hd: Header): nat
    requires |hd.index| > 0
  {
    (hd.tail + 1) % |hd.index|
  }

  predicate Vacant(e: Entry) { e.key.None? || e.value.None? }

  predicate At<T>(s: State<T>, c: nat) { c < |s.consumers| && s.consumers[c].lo < s.consumers[c].hi }

  predicate Enabled<T>(s: State<T>, a: Action<T>)
    requires Typed(s)
  {
    var hd := Last(s.headers);
    match a
    case StoreKey =>
      s.producer.Ready? && |s.items| == BLOCK_SIZE * |s.placed| && Vacant(s.entries[hd.index[NextSlot(hd)]])
    case Grow(garbage) =>
      && s.producer.Ready? && |s.items| == BLOCK_SIZE * |s.placed|
      && !Vacant(s.entries[hd.index[NextSlot(hd)]])
      && INITIAL_LOG + |s.headers| <= MAX_LOG && |garbage| == |hd.index|
    case StoreTail => s.producer.KeyStored?
    case RewindTail => s.producer.TailStored?
    case ClearValue => s.producer.Rewound?
    case StoreBlock(block) =>
      s.producer.TailStored? && forall n | 0 <= n < |s.placed| && !s.placed[n].life.Released? :: s.placed[n].block != block
    case Enqueue(_) => s.producer.Ready? && |s.items| < BLOCK_SIZE * |s.placed|
    case Claim(count) => count > 0 && s.head + count <= |s.items|
    case ReadHeader(c) => At(s, c) && s.consumers[c].stage.Claimed?
    case ReadTail(c) => At(s, c) && s.consumers[c].stage.HasHeader?
    case ReadTailKey(c) => At(s, c) && s.consumers[c].stage.HasTail?
    case Locate(c) => At(s, c) && s.consumers[c].stage.HasTailKey?
    case LoadBlock(c) => At(s, c) && s.consumers[c].stage.Walking?
    case SetEmpty(c) =>
      && At(s, c) && s.consumers[c].stage.Reading? && s.consumers[c].stage.block.Some?
      && s.consumers[c].stage.block.value in s.dequeued
      && s.consumers[c].lo / BLOCK_SIZE < |s.placed|
    case ReleaseBlock(c) => c < |s.consumers| && s.consumers[c].stage.Releasing?
  }

  /** The new header: the old slots from the oldest on, then fresh entries. */
  function Grown(hd: Header, next: nat): Header
    requires |hd.index| > 0 && hd.tail < |hd.index|
  {
    var n := |hd.index|;
    Header(n - 1,
           seq(2 * n, j requires 0 <= j < 2 * n => if j < n then hd.index[(hd.tail + 1 + j) % n] else j),
           seq(2 * n, e requires 0 <= e < 2 * n => if e < n && e < |hd.pos| then (hd.pos[e] - hd.tail - 1) % n else e),
           next - n)
  }

  /** The slot computed by the lookup, on 64-bit words: the signed difference is divided by an
      unsigned BLOCK_SIZE, so a negative offset of k blocks becomes 2^59 - k. */
  function LookupSlot(tail: nat, base: nat, tailBase: nat, capacity: nat): (slot: nat)
    requires capacity > 0
    ensures slot < capacity
  {
    Word(tail + Word(base - tailBase) / BLOCK_SIZE) % capacity
  }

  function KeyWord(k: Option<nat>): nat { if k.Some? then k.value else INVALID_BLOCK_BASE }

  function BlockEnd(c: Consumer): nat {
    var end := c.lo / BLOCK_SIZE * BLOCK_SIZE + BLOCK_SIZE;
    if c.hi < end then c.hi else end
  }

  /** On to the next block of the same header, one slot further. */
  function Onward(c: Consumer, lo: nat, capacity: nat): Consumer
    requires c.stage.Reading? || c.stage.Releasing?
    requires capacity > 0
  {
    Consumer(lo, c.hi, Walking(c.stage.h, (c.stage.slot + 1) % capacity))
  }

  function MarkGone(gone: seq<bool>, lo: nat, hi: nat): (r: seq<bool>)
    ensures |r| == |gone|
  {
    seq(|gone|, i requires 0 <= i < |gone| => gone[i] || lo <= i < hi)
  }

  function SetStage<T>(s: State<T>, c: nat, st: Stage): State<T>
    requires c < |s.consumers|
  {
    s.(consumers := s.consumers[c := s.consumers[c].(stage := st)])
  }

  function SetLastTail(headers: seq<Header>, tail: nat): (r: seq<Header>)
    requires |headers| > 0
    ensures |r| == |headers|
  {
    headers[|headers| - 1 := Last(headers).(tail := tail)]
  }

  function ProducerStep<T>(s: State<T>, a: Action<T>): State<T>
    requires Typed(s) && Enabled(s, a)
    requires a.StoreKey? || a.Grow? || a.StoreTail? || a.RewindTail? || a.ClearValue? || a.StoreBlock? || a.Enqueue?
  {
    var hd := Last(s.headers);
    var cap := |hd.index|;
    match a
    case StoreKey =>
      var slot := NextSlot(hd);
      var e := hd.index[slot];
      s.(entries := s.entries[e := s.entries[e].(key := Some(|s.items|))],
         producer := KeyStored(slot),
         oldest := if s.oldest + cap <= |s.placed| then s.oldest + 1 else s.oldest)
    case Grow(garbage) =>
      s.(entries := s.entries + seq(cap, j requires 0 <= j < cap => Entry(None, garbage[j])),
         headers := s.headers + [Grown(hd, |s.placed|)])
    case StoreTail =>
      s.(headers := SetLastTail(s.headers, s.producer.slot), producer := TailStored(s.producer.slot))
    case RewindTail =>
      s.(headers := SetLastTail(s.headers, (hd.tail + cap - 1) % cap), producer := Rewound(s.producer.slot))
    case ClearValue =>
      var e := hd.index[s.producer.slot];
      s.(entries := s.entries[e := s.entries[e].(value := None)], producer := Ready)
    case StoreBlock(block) =>
      var e := hd.index[s.producer.slot];
      s.(entries := s.entries[e := s.entries[e].(value := Some(block))],
         dequeued := s.dequeued[block := 0],
         placed := s.placed + [Placement(e, block, Live)],
         gone := s.gone + seq(BLOCK_SIZE, _ => false),
         producer := Ready)
    case Enqueue(x) =>
      var n := |s.items| / BLOCK_SIZE;
      s.(items := s.items + [x],
         cells := s.cells[(s.placed[n].block, |s.items| % BLOCK_SIZE) := x])
  }

  function ConsumerStep<T>(s: State<T>, a: Action<T>): State<T>
    requires Typed(s) && Enabled(s, a)
    requires a.Claim? || a.ReadHeader? || a.ReadTail? || a.ReadTailKey? || a.Locate? || a.LoadBlock?
  {
    match a
    case Claim(count) =>
      s.(head := s.head + count,
         holder := s.holder + seq(count, _ => |s.consumers|),
         consumers := s.consumers + [Consumer(s.head, s.head + count, Claimed)])
    case ReadHeader(c) => SetStage(s, c, HasHeader(|s.headers| - 1))
    case ReadTail(c) =>
      var st := s.consumers[c].stage;
      SetStage(s, c, HasTail(st.h, s.headers[st.h].tail))
    case ReadTailKey(c) =>
      var st := s.consumers[c].stage;
      SetStage(s, c, HasTailKey(st.h, st.tail, KeyWord(s.entries[s.headers[st.h].index[st.tail]].key)))
    case Locate(c) =>
      var st := s.consumers[c].stage;
      var base := s.consumers[c].lo / BLOCK_SIZE * BLOCK_SIZE;
      SetStage(s, c, Walking(st.h, LookupSlot(st.tail, base, st.base, |s.headers[st.h].index|)))
    case LoadBlock(c) =>
      var st := s.consumers[c].stage;
      SetStage(s, c, Reading(st.h, st.slot, s.entries[s.headers[st.h].index[st.slot]].value))
  }

  /** set_many_empty: one fetch_add; whoever completes the block goes on to release it. */
  function Emptied<T>(s: State<T>, c: nat): State<T>
    requires Typed(s) && Enabled(s, SetEmpty(c))
  {
    var me := s.consumers[c];
    var b := me.stage.block.value;
    var end := BlockEnd(me);
    var n := me.lo / BLOCK_SIZE;
    var count := s.dequeued[b] + (end - me.lo);
    var s1 := s.(dequeued := s.dequeued[b := count], gone := MarkGone(s.gone, me.lo, end));
    if count == BLOCK_SIZE then
      s1.(placed := s.placed[n := s.placed[n].(life := Draining(c))],
          consumers := s.consumers[c := Consumer(end, me.hi, Releasing(me.stage.h, me.stage.slot, n))])
    else
      s1.(consumers := s.consumers[c := Onward(me, end, |s.headers[me.stage.h].index|)])
  }

  function Freed<T>(s: State<T>, c: nat): State<T>
    requires Typed(s) && Enabled(s, ReleaseBlock(c))
  {
    var me := s.consumers[c];
    var e := s.headers[me.stage.h].index[me.stage.slot];
    s.(entries := s.entries[e := s.entries[e].(value := None)],
       placed := s.placed[me.stage.number := s.placed[me.stage.number].(life := Released)],
       consumers := s.consumers[c := Onward(me, me.lo, |s.headers[me.stage.h].index|)])
  }

  function Apply<T>(s: State<T>, a: Action<T>): State<T>
    requires Typed(s) && Enabled(s, a)
  {
    match a
    case SetEmpty(c) => Emptied(s, c)
    case ReleaseBlock(c) => Freed(s, c)
    case StoreKey => ProducerStep(s, a)
    case Grow(_) => ProducerStep(s, a)
    case StoreTail => ProducerStep(s, a)
    case RewindTail => ProducerStep(s, a)
    case ClearValue => ProducerStep(s, a)
    case StoreBlock(_) => ProducerStep(s, a)
    case Enqueue(_) => ProducerStep(s, a)
    case _ => ConsumerStep(s, a)
  }

  ghost predicate Next<T(!new)>(s: State<T>, s': State<T>) {
    Typed(s) && exists a: Action<T> :: Enabled(s, a) && s' == Apply(s, a)
  }

  ghost predicate Run<T(!new)>(run: seq<State<T>>) {
    && |run| > 0 && Init(run[0])
    && forall i | 0 <= i < |run| - 1 :: Next(run[i], run[i + 1])
  }

  // ---- slots ----

  /** The slot of block number n in a header. */
  function Slot(n: int, hd: Header): (slot: nat)
    requires |hd.index| > 0
    ensures slot < |hd.index|
  {
    (n - hd.phase) % |hd.index|
  }

  lemma SlotStep(n: int, d: int, hd: Header)
    requires |hd.index| > 0
    ensures (Slot(n, hd) + d) % |hd.index| == Slot(n + d, hd)
  {
    ModAdd(n - hd.phase, d, |hd.index|);
  }

  lemma SlotPeriod(n: int, k: int, hd: Header)
    requires |hd.index| > 0
    ensures Slot(n + k * |hd.index|, hd) == Slot(n, hd)
  {
    ModShift(n - hd.phase, k, |hd.index|);
  }

  lemma SlotInjective(n: int, m: int, hd: Header)
    requires |hd.index| > 0 && -|hd.index| < n - m < |hd.index|
    ensures Slot(n, hd) == Slot(m, hd) ==> n == m
  {
    if Slot(n, hd) == Slot(m, hd) {
      ModInjective(n - hd.phase, m - hd.phase, |hd.index|);
    }
  }

  const BIG: int := 0x0800_0000_0000_0000

  /** The unsigned division turns an offset of d blocks into d modulo 2^59. */
  lemma WordOffset(d: int)
    ensures Word(d * BLOCK_SIZE) / BLOCK_SIZE == d % BIG
  {
    DivModUnique(d * BLOCK_SIZE, WORD, d / BIG, (d % BIG) * BLOCK_SIZE);
  }

  /** Masking by a capacity that divides 2^59 recovers the offset. */
  lemma MaskOffset(t: int, d: int, k: int, cap: int)
    requires cap > 0 && k > 0 && k * cap == BIG
    ensures Word(t + d % BIG) % cap == (t + d) % cap
  {
    var sum := t + d % BIG;
    assert (32 * k) * cap == WORD;
    ModMod(sum, 32 * k, cap);
    assert sum == (t + d) + (-(d / BIG) * k) * cap by {
      assert (-(d / BIG) * k) * cap == -(d / BIG) * (k * cap);
    }
    ModShift(t + d, -(d / BIG) * k, cap);
  }

  lemma Pow2Of59()
    ensures Pow2(59) == BIG
  {
    assert Pow2(4) == 16;
    Pow2Add(4, 4);
    assert Pow2(8) == 0x100;
    Pow2Add(8, 8);
    assert Pow2(16) == 0x1_0000;
    Pow2Add(16, 16);
    assert Pow2(32) == 0x1_0000_0000;
    Pow2Add(16, 32);
    assert Pow2(48) == 0x1_0000_0000_0000;
    Pow2Add(8, 48);
    Pow2Add(3, 56);
  }

  /** The word arithmetic of the lookup lands on the slot of the wanted block, whichever block's key
      was found at the tail slot. */
  lemma LookupLandsOnSlot(hd: Header, log: nat, tail: nat, wanted: nat, found: nat)
    requires log <= MAX_LOG && |hd.index| == Pow2(log) && tail == Slot(found, hd)
    ensures LookupSlot(tail, wanted * BLOCK_SIZE, found * BLOCK_SIZE, |hd.index|) == Slot(wanted, hd)
  {
    var d: int := wanted - found;
    Pow2Of59();
    Pow2Divides(log, 59);
    assert wanted * BLOCK_SIZE - found * BLOCK_SIZE == d * BLOCK_SIZE;
    WordOffset(d);
    MaskOffset(tail, d, Pow2(59 - log), |hd.index|);
    SlotStep(found, d, hd);
  }
}
