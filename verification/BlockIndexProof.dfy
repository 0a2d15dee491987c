/** Why every lookup in the growing block index succeeds, in every interleaving. */
module BlockIndexProof {
  import opened Wrappers
  import opened Counting
  import opened ModArith
  import opened BlockIndex

  // ---- the invariant, one group per part of the state ----

  ghost predicate Bijective(hd: Header) {
    && |hd.pos| == |hd.index|
    && (forall i | 0 <= i < |hd.index| :: hd.index[i] < |hd.index| && hd.pos[hd.index[i]] == i)
    && (forall e | 0 <= e < |hd.pos| :: hd.pos[e] < |hd.index| && hd.index[hd.pos[e]] == e)
  }

  /** Header h has 32 * 2^h slots, which are exactly the entries allocated when it was published. */
  ghost predicate Structure(headers: seq<Header>, count: nat) {
    && 0 < |headers| && INITIAL_LOG + |headers| - 1 <= MAX_LOG
    && (forall h | 0 <= h < |headers| ::
          && |headers[h].index| == Pow2(INITIAL_LOG + h)
          && headers[h].tail < |headers[h].index|
          && Bijective(headers[h]))
    && |Last(headers).index| == count
  }

  ghost predicate KeyFits(k: Option<nat>, slot: nat, hd: Header) {
    k.Some? && |hd.index| > 0 ==> k.value % BLOCK_SIZE == 0 && slot == Slot(k.value / BLOCK_SIZE, hd)
  }

  /** The congruence: in every header, old or new, whatever key an entry holds fits its slot. */
  ghost predicate Phases(headers: seq<Header>, entries: seq<Entry>) {
    forall h, e | 0 <= h < |headers| && 0 <= e < |headers[h].pos| && e < |entries| ::
      KeyFits(entries[e].key, headers[h].pos[e], headers[h])
  }

  /** A header is only replaced once all its entries hold a key. */
  ghost predicate OldKeys(headers: seq<Header>, entries: seq<Entry>) {
    forall h, e | 0 <= h < |headers| - 1 && 0 <= e < |headers[h].pos| && e < |entries| :: entries[e].key.Some?
  }

  ghost predicate HoldsKey(entries: seq<Entry>, hd: Header, n: nat, k: Option<nat>) {
    && |hd.index| > 0
    && hd.index[Slot(n, hd)] < |entries|
    && entries[hd.index[Slot(n, hd)]].key == k
  }

  ghost predicate Kept(hd: Header, entries: seq<Entry>, oldest: nat, next: nat) {
    forall n | oldest <= n < next :: HoldsKey(entries, hd, n, Some(BLOCK_SIZE * n))
  }

  ghost predicate Beyond(hd: Header, entries: seq<Entry>, oldest: nat, next: nat) {
    forall n | next <= n < oldest + |hd.index| ::
      HoldsKey(entries, hd, n, None) || (n == next && HoldsKey(entries, hd, n, Some(BLOCK_SIZE * n)))
  }

  /** Blocks oldest .. next hold their keys in the current header, the slots beyond are unused, apart
      from the slot of `next`, where an insertion may be under way or have been rewound. */
  ghost predicate Window(hd: Header, entries: seq<Entry>, oldest: nat, next: nat, p: Producer) {
    && |hd.index| > 0 && oldest <= next <= oldest + |hd.index| && (next > 0 ==> oldest < next)
    && Kept(hd, entries, oldest, next)
    && Beyond(hd, entries, oldest, next)
    && (if p.TailStored? then hd.tail == Slot(next, hd) else hd.tail == Slot(next - 1, hd))
    && (if p.Ready?
        then HoldsKey(entries, hd, next, Some(BLOCK_SIZE * next)) ==> entries[hd.index[Slot(next, hd)]].value.None?
        else p.slot == Slot(next, hd) && next < oldest + |hd.index| && HoldsKey(entries, hd, next, Some(BLOCK_SIZE * next)))
  }

  /** An unreleased block is where it was put. */
  ghost predicate LiveEntries(entries: seq<Entry>, placed: seq<Placement>) {
    forall n | 0 <= n < |placed| && !placed[n].life.Released? ::
      placed[n].home < |entries| && entries[placed[n].home] == Entry(Some(BLOCK_SIZE * n), Some(placed[n].block))
  }

  ghost predicate DistinctBlocks(placed: seq<Placement>) {
    forall m, n | 0 <= m < n < |placed| && !placed[m].life.Released? && !placed[n].life.Released? ::
      placed[m].block != placed[n].block
  }

  function One(b: bool): nat { if b then 1 else 0 }

  function EmptiedIn(gone: seq<bool>, n: nat): nat
    requires BLOCK_SIZE * n + BLOCK_SIZE <= |gone|
  {
    Sum(gone[BLOCK_SIZE * n..BLOCK_SIZE * n + BLOCK_SIZE], One)
  }

  ghost predicate CounterOk(p: Placement, gone: seq<bool>, dequeued: map<nat, nat>, n: nat)
    requires BLOCK_SIZE * n + BLOCK_SIZE <= |gone|
  {
    && (!p.life.Released? ==> p.block in dequeued && dequeued[p.block] == EmptiedIn(gone, n))
    && (p.life.Live? <==> EmptiedIn(gone, n) < BLOCK_SIZE)
  }

  ghost predicate Counters(placed: seq<Placement>, gone: seq<bool>, dequeued: map<nat, nat>) {
    && |gone| == BLOCK_SIZE * |placed|
    && forall n | 0 <= n < |placed| :: CounterOk(placed[n], gone, dequeued, n)
  }

  /** A published element that is not emptied is still in its cell. */
  ghost predicate CellsOk<T>(items: seq<T>, placed: seq<Placement>, gone: seq<bool>, cells: map<(nat, nat), T>) {
    && |items| <= BLOCK_SIZE * |placed| == |gone|
    && forall i | 0 <= i < |items| && !gone[i] ::
         var cell := (placed[i / BLOCK_SIZE].block, i % BLOCK_SIZE);
         cell in cells && cells[cell] == items[i]
  }

  ghost predicate ClaimsOk(published: nat, head: nat, holder: seq<nat>, gone: seq<bool>) {
    && head <= published <= |gone| && |holder| == head
    && forall i | head <= i < |gone| :: !gone[i]
  }

  ghost predicate Reaches(headers: seq<Header>, placed: seq<Placement>, h: nat, lo: nat, hi: nat) {
    && h < |headers|
    && forall n | lo / BLOCK_SIZE <= n && BLOCK_SIZE * n < hi ::
         0 <= n < |placed| && placed[n].home < |headers[h].index|
  }

  ghost predicate Owed(c: nat, me: Consumer, head: nat, holder: seq<nat>, gone: seq<bool>) {
    && me.lo <= me.hi <= head && head <= |holder| && head <= |gone|
    && forall i | me.lo <= i < me.hi :: holder[i] == c && !gone[i]
  }

  ghost predicate StageOk(headers: seq<Header>, entries: seq<Entry>, placed: seq<Placement>, c: nat, me: Consumer) {
    match me.stage
    case Claimed => me.lo < me.hi
    case HasHeader(h) => me.lo < me.hi && Reaches(headers, placed, h, me.lo, me.hi)
    case HasTail(h, tail) =>
      && me.lo < me.hi && Reaches(headers, placed, h, me.lo, me.hi)
      && tail < |headers[h].index| && headers[h].index[tail] < |entries|
      && entries[headers[h].index[tail]].key.Some?
    case HasTailKey(h, tail, base) =>
      && me.lo < me.hi && Reaches(headers, placed, h, me.lo, me.hi)
      && tail < |headers[h].index| && KeyFits(Some(base), tail, headers[h])
    case Walking(h, slot) =>
      && Reaches(headers, placed, h, me.lo, me.hi) && slot < |headers[h].index|
      && (me.lo < me.hi ==> slot == Slot(me.lo / BLOCK_SIZE, headers[h]))
    case Reading(h, slot, block) =>
      && me.lo < me.hi && Reaches(headers, placed, h, me.lo, me.hi) && |headers[h].index| > 0
      && slot == Slot(me.lo / BLOCK_SIZE, headers[h])
      && me.lo / BLOCK_SIZE < |placed| && block == Some(placed[me.lo / BLOCK_SIZE].block)
    case Releasing(h, slot, n) =>
      && Reaches(headers, placed, h, me.lo, me.hi) && |headers[h].index| > 0
      && n < |placed| && placed[n].life == Draining(c) && placed[n].home < |headers[h].index|
      && slot == Slot(n, headers[h])
      && (me.lo < me.hi ==> me.lo / BLOCK_SIZE == n + 1)
  }

  ghost predicate ConsumersOk<T>(s: State<T>) {
    forall c | 0 <= c < |s.consumers| ::
      && StageOk(s.headers, s.entries, s.placed, c, s.consumers[c])
      && Owed(c, s.consumers[c], s.head, s.holder, s.gone)
  }

  ghost predicate Inv<T>(s: State<T>) {
    && Structure(s.headers, |s.entries|)
    && Phases(s.headers, s.entries)
    && OldKeys(s.headers, s.entries)
    && Window(Last(s.headers), s.entries, s.oldest, |s.placed|, s.producer)
    && LiveEntries(s.entries, s.placed)
    && DistinctBlocks(s.placed)
    && Counters(s.placed, s.gone, s.dequeued)
    && CellsOk(s.items, s.placed, s.gone, s.cells)
    && ClaimsOk(|s.items|, s.head, s.holder, s.gone)
    && ConsumersOk(s)
  }

  lemma InvIsTyped<T>(s: State<T>)
    requires Inv(s)
    ensures Typed(s)
  {
    forall h | 0 <= h < |s.headers| ensures SlotsInRange(s.headers[h], |s.entries|) {
      Pow2Divides(INITIAL_LOG + h, INITIAL_LOG + |s.headers| - 1);
    }
    forall c | 0 <= c < |s.consumers| ensures StageTyped(s, s.consumers[c].stage) {
      assert StageOk(s.headers, s.entries, s.placed, c, s.consumers[c]);
    }
  }

  // ---- the lookup ----

  /** An unreleased block whose entry existed when a header was published sits in that header's slot
      for it: the slot any lookup through that header computes. */
  lemma BlockIsInItsSlot<T>(s: State<T>, h: nat, n: nat)
    requires Structure(s.headers, |s.entries|) && Phases(s.headers, s.entries) && LiveEntries(s.entries, s.placed)
    requires h < |s.headers| && n < |s.placed| && !s.placed[n].life.Released?
    requires s.placed[n].home < |s.headers[h].index|
    ensures |s.headers[h].index| > 0
    ensures s.headers[h].index[Slot(n, s.headers[h])] == s.placed[n].home
  {
    var e := s.placed[n].home;
    assert KeyFits(s.entries[e].key, s.headers[h].pos[e], s.headers[h]);
    assert BLOCK_SIZE * n / BLOCK_SIZE == n;
  }

  /** The block of an index that is owed is unreleased. */
  lemma OwedBlockIsLive(placed: seq<Placement>, gone: seq<bool>, dequeued: map<nat, nat>, i: nat)
    requires Counters(placed, gone, dequeued) && i < |gone| && !gone[i]
    ensures i / BLOCK_SIZE < |placed| && placed[i / BLOCK_SIZE].life.Live?
  {
    var n := i / BLOCK_SIZE;
    assert CounterOk(placed[n], gone, dequeued, n);
    var slice := gone[BLOCK_SIZE * n..BLOCK_SIZE * n + BLOCK_SIZE];
    assert !slice[i % BLOCK_SIZE];
    NotFull(slice, i % BLOCK_SIZE);
  }

  lemma {:induction false} NotFull(bits: seq<bool>, i: nat)
    requires i < |bits| && !bits[i]
    ensures Sum(bits, One) < |bits|
  {
    AtMostAll(bits[..|bits| - 1]);
    if i < |bits| - 1 {
      NotFull(bits[..|bits| - 1], i);
    }
  }

  lemma {:induction false} AtMostAll(bits: seq<bool>)
    ensures Sum(bits, One) <= |bits|
  {
    if |bits| > 0 {
      AtMostAll(bits[..|bits| - 1]);
    }
  }

  // ---- what later steps cannot take away from a consumer ----

  ghost predicate SameSlots(a: Header, b: Header) {
    a.index == b.index && a.pos == b.pos && a.phase == b.phase
  }

  ghost predicate HeadersStay(headers: seq<Header>, headers': seq<Header>) {
    |headers| <= |headers'| && forall h | 0 <= h < |headers| :: SameSlots(headers[h], headers'[h])
  }

  ghost predicate KeysStay(entries: seq<Entry>, entries': seq<Entry>) {
    |entries| <= |entries'| && forall e | 0 <= e < |entries| && entries[e].key.Some? :: entries'[e].key.Some?
  }

  ghost predicate PlacesStay(placed: seq<Placement>, placed': seq<Placement>, c: nat) {
    && |placed| <= |placed'|
    && forall n | 0 <= n < |placed| ::
         && placed'[n].home == placed[n].home && placed'[n].block == placed[n].block
         && (placed[n].life == Draining(c) ==> placed'[n].life == Draining(c))
  }

  lemma StageStays(headers: seq<Header>, headers': seq<Header>, entries: seq<Entry>, entries': seq<Entry>,
                   placed: seq<Placement>, placed': seq<Placement>, c: nat, me: Consumer)
    requires StageOk(headers, entries, placed, c, me)
    requires HeadersStay(headers, headers') && KeysStay(entries, entries') && PlacesStay(placed, placed', c)
    ensures StageOk(headers', entries', placed', c, me)
  {
    if !me.stage.Claimed? {
      assert SameSlots(headers[me.stage.h], headers'[me.stage.h]);
      assert Reaches(headers', placed', me.stage.h, me.lo, me.hi);
    }
  }

  /** A producer step leaves every consumer where it was. */
  lemma ProducerKeepsConsumers<T>(s: State<T>, s': State<T>)
    requires ConsumersOk(s) && s'.consumers == s.consumers && s'.head == s.head && s'.holder == s.holder
    requires s.gone <= s'.gone && s.head <= |s.gone|
    requires HeadersStay(s.headers, s'.headers) && KeysStay(s.entries, s'.entries) && s.placed <= s'.placed
    ensures ConsumersOk(s')
  {
    forall c | 0 <= c < |s'.consumers|
      ensures StageOk(s'.headers, s'.entries, s'.placed, c, s'.consumers[c])
      ensures Owed(c, s'.consumers[c], s'.head, s'.holder, s'.gone)
    {
      assert StageOk(s.headers, s.entries, s.placed, c, s.consumers[c]);
      StageStays(s.headers, s'.headers, s.entries, s'.entries, s.placed, s'.placed, c, s.consumers[c]);
    }
  }

  // ---- producer steps ----

  /** Filling the next slot respects the congruence in every header that shares the entry: the key it
      replaces is exactly one capacity older, and older capacities divide the current one. */
  lemma StoreKeyPhases<T>(s: State<T>, h: nat)
    requires Structure(s.headers, |s.entries|) && Phases(s.headers, s.entries) && OldKeys(s.headers, s.entries)
    requires Window(Last(s.headers), s.entries, s.oldest, |s.placed|, Ready)
    requires h < |s.headers| && NewHome(s) < |s.headers[h].pos|
    ensures KeyFits(Some(BLOCK_SIZE * |s.placed|), s.headers[h].pos[NewHome(s)], s.headers[h])
  {
    var hd, n, e := Last(s.headers), |s.placed|, NewHome(s);
    assert BLOCK_SIZE * n / BLOCK_SIZE == n;
    if h < |s.headers| - 1 {
      assert s.entries[e].key.Some?;
      assert KeyFits(s.entries[e].key, s.headers[h].pos[e], s.headers[h]);
      if s.oldest + |hd.index| == n {
        SlotPeriod(s.oldest, 1, hd);
        assert HoldsKey(s.entries, hd, s.oldest, Some(BLOCK_SIZE * s.oldest));
        assert BLOCK_SIZE * s.oldest / BLOCK_SIZE == s.oldest;
        OlderPeriod(s.headers, h, s.oldest, n);
      } else {
        assert HoldsKey(s.entries, hd, n, s.entries[e].key);
      }
    }
  }

  /** Block numbers one capacity of the last header apart share a slot in every older header. */
  lemma OlderPeriod(headers: seq<Header>, h: nat, oldest: nat, n: nat)
    requires h < |headers| && n == oldest + |Last(headers).index| && |headers[h].index| == Pow2(INITIAL_LOG + h)
    requires |Last(headers).index| == Pow2(INITIAL_LOG + |headers| - 1)
    ensures Slot(n, headers[h]) == Slot(oldest, headers[h])
  {
    Pow2Divides(INITIAL_LOG + h, INITIAL_LOG + |headers| - 1);
    SlotPeriod(oldest, Pow2(|headers| - 1 - h), headers[h]);
  }

  /** The entry that the next block number will use. */
  ghost function NewHome<T>(s: State<T>): nat
    requires Structure(s.headers, |s.entries|)
  {
    Last(s.headers).index[Slot(|s.placed|, Last(s.headers))]
  }

  lemma WindowAfterKey(hd: Header, entries: seq<Entry>, oldest: nat, next: nat)
    requires Bijective(hd) && |hd.index| == |entries| && |hd.index| >= 2
    requires Window(hd, entries, oldest, next, Ready)
    ensures var e := hd.index[Slot(next, hd)];
            var oldest' := if oldest + |hd.index| <= next then oldest + 1 else oldest;
            Window(hd, entries[e := entries[e].(key := Some(BLOCK_SIZE * next))], oldest', next, KeyStored(Slot(next, hd)))
  {
    var e := hd.index[Slot(next, hd)];
    var oldest' := if oldest + |hd.index| <= next then oldest + 1 else oldest;
    var entries' := entries[e := entries[e].(key := Some(BLOCK_SIZE * next))];
    forall n: nat | oldest' <= n < oldest' + |hd.index| && n != next
      ensures hd.index[Slot(n, hd)] != e
    {
      SlotInjective(n, next, hd);
      assert hd.pos[e] == Slot(next, hd);
    }
    forall n: nat | next < n < oldest' + |hd.index| ensures HoldsKey(entries', hd, n, None) {
      assert HoldsKey(entries, hd, n, None);
    }
    forall n: nat | oldest' <= n < next ensures HoldsKey(entries', hd, n, Some(BLOCK_SIZE * n)) {
      assert HoldsKey(entries, hd, n, Some(BLOCK_SIZE * n));
    }
  }

  lemma NextSlotIsNewHome<T>(s: State<T>)
    requires Structure(s.headers, |s.entries|)
    requires Last(s.headers).tail == Slot(|s.placed| - 1, Last(s.headers))
    ensures NextSlot(Last(s.headers)) == Slot(|s.placed|, Last(s.headers))
  {
    SlotStep(|s.placed| - 1, 1, Last(s.headers));
  }

  lemma CapacityAtLeast32(headers: seq<Header>, count: nat, h: nat)
    requires Structure(headers, count) && h < |headers|
    ensures |headers[h].index| >= 32
  {
    assert Pow2(5) == 32;
    Pow2Divides(5, 5 + h);
  }

  lemma StoreKeyKeepsInv<T>(s: State<T>)
    requires Inv(s) && Typed(s) && Enabled(s, StoreKey)
    ensures Inv(Apply(s, StoreKey))
  {
    var s', hd, n, e := Apply(s, StoreKey), Last(s.headers), |s.placed|, NewHome(s);
    NextSlotIsNewHome(s);
    assert s'.entries == s.entries[e := s.entries[e].(key := Some(BLOCK_SIZE * n))];
    CapacityAtLeast32(s.headers, |s.entries|, |s.headers| - 1);
    WindowAfterKey(hd, s.entries, s.oldest, n);
    assert Phases(s'.headers, s'.entries) by {
      forall h, e' | 0 <= h < |s.headers| && 0 <= e' < |s.headers[h].pos| && e' < |s'.entries|
        ensures KeyFits(s'.entries[e'].key, s'.headers[h].pos[e'], s'.headers[h])
      {
        if e' == e { StoreKeyPhases(s, h); } else { assert KeyFits(s.entries[e'].key, s.headers[h].pos[e'], s.headers[h]); }
      }
    }
    ProducerKeepsConsumers(s, s');
  }

  /** A slot can only be occupied ahead of the tail when the window spans the whole header. */
  lemma FullWindow<T>(s: State<T>)
    requires Structure(s.headers, |s.entries|)
    requires Window(Last(s.headers), s.entries, s.oldest, |s.placed|, Ready)
    requires !Vacant(s.entries[NewHome(s)])
    ensures s.oldest + |Last(s.headers).index| == |s.placed|
  {
    var k := s.entries[NewHome(s)].key;
    assert HoldsKey(s.entries, Last(s.headers), |s.placed|, k);
  }

  /** In a full window every entry holds the key of one of the last |index| blocks. */
  lemma FullWindowKey(hd: Header, entries: seq<Entry>, oldest: nat, next: nat, e: nat) returns (n: nat)
    requires Bijective(hd) && |hd.index| == |entries| && Window(hd, entries, oldest, next, Ready)
    requires oldest + |hd.index| == next && e < |entries|
    ensures oldest <= n < next && hd.pos[e] == Slot(n, hd) && entries[e].key == Some(BLOCK_SIZE * n)
  {
    var cap := |hd.index|;
    var d := (hd.pos[e] + hd.phase - oldest) % cap;
    n := oldest + d;
    SlotStep(oldest, d, hd);
    assert Slot(n, hd) == hd.pos[e] by {
      ModAdd(hd.pos[e] + hd.phase - oldest, oldest - hd.phase, cap);
      ModSmall(hd.pos[e], cap);
    }
    assert HoldsKey(entries, hd, n, Some(BLOCK_SIZE * n));
  }

  lemma GrownIsBijective(hd: Header, next: nat)
    requires Bijective(hd) && 0 < |hd.index| && hd.tail < |hd.index|
    ensures Bijective(Grown(hd, next))
  {
    var g, n := Grown(hd, next), |hd.index|;
    forall j | 0 <= j < |g.index| ensures g.index[j] < |g.index| && g.pos[g.index[j]] == j {
      if j < n {
        var q := (hd.tail + 1 + j) % n;
        assert hd.pos[hd.index[q]] == q;
        ModAdd(hd.tail + 1 + j, 0 - hd.tail - 1, n);
        ModSmall(j, n);
      }
    }
    forall e | 0 <= e < |g.pos| ensures g.pos[e] < |g.index| && g.index[g.pos[e]] == e {
      if e < n {
        ModAdd(hd.pos[e] - hd.tail - 1, hd.tail + 1, n);
        ModSmall(hd.pos[e], n);
        assert hd.index[hd.pos[e]] == e;
      }
    }
  }

  /** Slot of block n in the grown header: the old window starts it, one period is twice as long. */
  lemma GrownSlot(hd: Header, next: nat, n: int)
    requires 0 < |hd.index| && hd.tail < |hd.index| && next - |hd.index| <= n < next + |hd.index|
    ensures Slot(n, Grown(hd, next)) == n - next + |hd.index|
  {
    ModSmall(n - next + |hd.index|, 2 * |hd.index|);
  }

  /** Block n of the old window keeps its entry when the header grows. */
  lemma GrownKeepsEntry(hd: Header, next: nat, n: int)
    requires 0 < |hd.index| && hd.tail == Slot(next - 1, hd) && next - |hd.index| <= n < next
    ensures Grown(hd, next).index[Slot(n, Grown(hd, next))] == hd.index[Slot(n, hd)]
  {
    var c := |hd.index|;
    GrownSlot(hd, next, n);
    SlotStep(next - 1, 1 + (n - next + c), hd);
    SlotPeriod(n, 1, hd);
  }

  lemma GrowWindow(hd: Header, entries: seq<Entry>, entries': seq<Entry>, oldest: nat, next: nat)
    requires Bijective(hd) && |hd.index| == |entries| && Window(hd, entries, oldest, next, Ready)
    requires oldest + |hd.index| == next && hd.tail < |hd.index|
    requires entries <= entries' && |entries'| == 2 * |entries|
    requires forall e | |entries| <= e < |entries'| :: entries'[e].key.None?
    ensures Window(Grown(hd, next), entries', oldest, next, Ready)
  {
    assert Kept(Grown(hd, next), entries', oldest, next) by {
      forall n: nat | oldest <= n < next ensures HoldsKey(entries', Grown(hd, next), n, Some(BLOCK_SIZE * n)) {
        GrowWindowOld(hd, entries, entries', next, n);
      }
    }
    GrowBeyond(hd, entries', oldest, next);
    GrownSlot(hd, next, next - 1);
  }

  lemma GrowBeyond(hd: Header, entries': seq<Entry>, oldest: nat, next: nat)
    requires 0 < |hd.index| && hd.tail < |hd.index| && oldest + |hd.index| == next && |entries'| == 2 * |hd.index|
    requires forall e | |hd.index| <= e < |entries'| :: entries'[e].key.None?
    ensures Beyond(Grown(hd, next), entries', oldest, next)
    ensures HoldsKey(entries', Grown(hd, next), next, None)
  {
    var g := Grown(hd, next);
    forall n: nat | next <= n < oldest + |g.index| ensures HoldsKey(entries', g, n, None) {
      GrownSlot(hd, next, n);
    }
  }

  lemma GrowWindowOld(hd: Header, entries: seq<Entry>, entries': seq<Entry>, next: nat, n: nat)
    requires 0 < |hd.index| == |entries| && hd.tail == Slot(next - 1, hd) && next - |hd.index| <= n < next
    requires entries <= entries' && HoldsKey(entries, hd, n, Some(BLOCK_SIZE * n))
    ensures HoldsKey(entries', Grown(hd, next), n, Some(BLOCK_SIZE * n))
  {
    GrownKeepsEntry(hd, next, n);
  }

  lemma GrowPhases<T>(s: State<T>, e: nat)
    requires Structure(s.headers, |s.entries|)
    requires Window(Last(s.headers), s.entries, s.oldest, |s.placed|, Ready)
    requires s.oldest + |Last(s.headers).index| == |s.placed| && e < |s.entries|
    ensures s.entries[e].key.Some?
    ensures KeyFits(s.entries[e].key, Grown(Last(s.headers), |s.placed|).pos[e], Grown(Last(s.headers), |s.placed|))
  {
    var hd, next := Last(s.headers), |s.placed|;
    var g := Grown(hd, next);
    var n := FullWindowKey(hd, s.entries, s.oldest, next, e);
    GrownKeepsEntry(hd, next, n);
    GrownSlot(hd, next, n);
    GrownIsBijective(hd, next);
    assert g.index[Slot(n, g)] == e;
    assert g.pos[e] == Slot(n, g);
    assert BLOCK_SIZE * n / BLOCK_SIZE == n;
  }

  lemma GrowKeepsInv<T>(s: State<T>, garbage: seq<Option<nat>>)
    requires Inv(s) && Typed(s) && Enabled(s, Grow(garbage))
    ensures Inv(Apply(s, Grow(garbage)))
  {
    var s', hd := Apply(s, Grow(garbage)), Last(s.headers);
    NextSlotIsNewHome(s);
    FullWindow(s);
    GrowKeepsKeys(s, s');
    GrowWindow(hd, s.entries, s'.entries, s.oldest, |s.placed|);
    NewHeaderKeepsInv(s, s', Grown(hd, |s.placed|));
  }

  lemma NewHeaderKeepsInv<T>(s: State<T>, s': State<T>, hd: Header)
    requires Inv(s) && s.producer.Ready? && s' == s.(headers := s.headers + [hd], entries := s'.entries)
    requires s.entries <= s'.entries && Window(hd, s'.entries, s.oldest, |s.placed|, Ready)
    requires Structure(s'.headers, |s'.entries|) && Phases(s'.headers, s'.entries) && OldKeys(s'.headers, s'.entries)
    ensures Inv(s')
  {
    assert Last(s'.headers) == hd;
    ProducerKeepsConsumers(s, s');
  }

  lemma GrowKeepsKeys<T>(s: State<T>, s': State<T>)
    requires Structure(s.headers, |s.entries|) && Phases(s.headers, s.entries)
    requires Window(Last(s.headers), s.entries, s.oldest, |s.placed|, Ready)
    requires s.oldest + |Last(s.headers).index| == |s.placed| && INITIAL_LOG + |s.headers| <= MAX_LOG
    requires s'.headers == s.headers + [Grown(Last(s.headers), |s.placed|)]
    requires s.entries <= s'.entries && |s'.entries| == 2 * |s.entries|
    requires forall e | |s.entries| <= e < |s'.entries| :: s'.entries[e].key.None?
    ensures Structure(s'.headers, |s'.entries|) && Phases(s'.headers, s'.entries) && OldKeys(s'.headers, s'.entries)
  {
    GrownIsBijective(Last(s.headers), |s.placed|);
    forall h, e | 0 <= h < |s'.headers| && 0 <= e < |s'.headers[h].pos| && e < |s'.entries|
      ensures KeyFits(s'.entries[e].key, s'.headers[h].pos[e], s'.headers[h])
      ensures h < |s'.headers| - 1 ==> s'.entries[e].key.Some?
    {
      GrowEntry(s, s', h, e);
    }
  }

  lemma GrowEntry<T>(s: State<T>, s': State<T>, h: nat, e: nat)
    requires Structure(s.headers, |s.entries|) && Phases(s.headers, s.entries)
    requires Window(Last(s.headers), s.entries, s.oldest, |s.placed|, Ready)
    requires s.oldest + |Last(s.headers).index| == |s.placed|
    requires s'.headers == s.headers + [Grown(Last(s.headers), |s.placed|)]
    requires s.entries <= s'.entries
    requires forall e | |s.entries| <= e < |s'.entries| :: s'.entries[e].key.None?
    requires h < |s'.headers| && e < |s'.headers[h].pos| && e < |s'.entries|
    ensures KeyFits(s'.entries[e].key, s'.headers[h].pos[e], s'.headers[h])
    ensures h < |s'.headers| - 1 ==> s'.entries[e].key.Some?
  {
    if h < |s.headers| {
      Pow2Divides(INITIAL_LOG + h, INITIAL_LOG + |s.headers| - 1);
      GrowPhases(s, e);
      assert KeyFits(s.entries[e].key, s.headers[h].pos[e], s.headers[h]);
    } else if e < |s.entries| {
      GrowPhases(s, e);
    }
  }

  /** Moving the tail of the current header leaves all slots as they were. */
  lemma MoveTail(headers: seq<Header>, entries: seq<Entry>, tail: nat)
    requires Structure(headers, |entries|) && Phases(headers, entries) && OldKeys(headers, entries)
    requires tail < |Last(headers).index|
    ensures var headers' := SetLastTail(headers, tail);
            && Structure(headers', |entries|) && Phases(headers', entries) && OldKeys(headers', entries)
            && HeadersStay(headers, headers') && Last(headers') == Last(headers).(tail := tail)
  {
    var headers' := SetLastTail(headers, tail);
    forall h, e | 0 <= h < |headers'| && 0 <= e < |headers'[h].pos| && e < |entries|
      ensures KeyFits(entries[e].key, headers'[h].pos[e], headers'[h])
      ensures h < |headers'| - 1 ==> entries[e].key.Some?
    {
      assert KeyFits(entries[e].key, headers[h].pos[e], headers[h]);
      assert h < |headers| - 1 ==> entries[e].key.Some?;
    }
  }

  lemma MoveWindow(hd: Header, entries: seq<Entry>, oldest: nat, next: nat, p: Producer, tail: nat, p': Producer)
    requires Window(hd, entries, oldest, next, p) && !p.Ready? && !p'.Ready? && p'.slot == p.slot
    requires tail == if p'.TailStored? then Slot(next, hd) else Slot(next - 1, hd)
    ensures Window(hd.(tail := tail), entries, oldest, next, p')
  {
    var hd' := hd.(tail := tail);
    forall n: nat, k | HoldsKey(entries, hd, n, k) ensures HoldsKey(entries, hd', n, k) {
      assert Slot(n, hd') == Slot(n, hd);
    }
  }

  lemma StoreTailKeepsInv<T>(s: State<T>)
    requires Inv(s) && Typed(s) && Enabled(s, StoreTail)
    ensures Inv(Apply(s, StoreTail))
  {
    var s', hd := Apply(s, StoreTail), Last(s.headers);
    MoveTail(s.headers, s.entries, s.producer.slot);
    MoveWindow(hd, s.entries, s.oldest, |s.placed|, s.producer, s.producer.slot, s'.producer);
    ProducerKeepsConsumers(s, s');
  }

  lemma SlotBefore(n: int, hd: Header)
    requires |hd.index| > 0
    ensures (Slot(n, hd) + |hd.index| - 1) % |hd.index| == Slot(n - 1, hd)
  {
    SlotStep(n, |hd.index| - 1, hd);
    SlotPeriod(n - 1, 1, hd);
  }

  lemma RewindTailKeepsInv<T>(s: State<T>)
    requires Inv(s) && Typed(s) && Enabled(s, RewindTail)
    ensures Inv(Apply(s, RewindTail))
  {
    var s', hd, next := Apply(s, RewindTail), Last(s.headers), |s.placed|;
    SlotBefore(next, hd);
    var tail := Slot(next - 1, hd);
    assert s'.headers == SetLastTail(s.headers, tail);
    MoveTail(s.headers, s.entries, tail);
    MoveWindow(hd, s.entries, s.oldest, next, s.producer, tail, s'.producer);
    ProducerKeepsConsumers(s, s');
  }

  /** The entry under insertion belongs to no placed block. */
  lemma InsertionIsSeparate<T>(s: State<T>, n: nat)
    requires Structure(s.headers, |s.entries|) && LiveEntries(s.entries, s.placed)
    requires Window(Last(s.headers), s.entries, s.oldest, |s.placed|, s.producer) && !s.producer.Ready?
    requires n < |s.placed| && !s.placed[n].life.Released?
    ensures s.placed[n].home != Last(s.headers).index[s.producer.slot]
  {
    assert HoldsKey(s.entries, Last(s.headers), |s.placed|, Some(BLOCK_SIZE * |s.placed|));
  }

  /** Storing a value leaves every key in place. */
  lemma StoreValueKeys(headers: seq<Header>, entries: seq<Entry>, e: nat, v: Option<nat>)
    requires Structure(headers, |entries|) && Phases(headers, entries) && OldKeys(headers, entries) && e < |entries|
    ensures var entries' := entries[e := entries[e].(value := v)];
            Phases(headers, entries') && OldKeys(headers, entries') && KeysStay(entries, entries')
  {
    var entries' := entries[e := entries[e].(value := v)];
    forall h, e' | 0 <= h < |headers| && 0 <= e' < |headers[h].pos| && e' < |entries'|
      ensures KeyFits(entries'[e'].key, headers[h].pos[e'], headers[h])
      ensures h < |headers| - 1 ==> entries'[e'].key.Some?
    {
      assert KeyFits(entries[e'].key, headers[h].pos[e'], headers[h]);
      assert h < |headers| - 1 ==> entries[e'].key.Some?;
    }
  }

  lemma StoreValueWindow(hd: Header, entries: seq<Entry>, oldest: nat, next: nat, e: nat, v: Option<nat>)
    requires 0 < |hd.index| && Kept(hd, entries, oldest, next) && Beyond(hd, entries, oldest, next) && e < |entries|
    ensures var entries' := entries[e := entries[e].(value := v)];
            Kept(hd, entries', oldest, next) && Beyond(hd, entries', oldest, next)
  {
    var entries' := entries[e := entries[e].(value := v)];
    forall n: nat, k | HoldsKey(entries, hd, n, k) ensures HoldsKey(entries', hd, n, k) {
    }
  }

  lemma ClearValueKeepsInv<T>(s: State<T>)
    requires Inv(s) && Typed(s) && Enabled(s, ClearValue)
    ensures Inv(Apply(s, ClearValue))
  {
    var s', hd := Apply(s, ClearValue), Last(s.headers);
    var e := hd.index[s.producer.slot];
    StoreValueKeys(s.headers, s.entries, e, None);
    StoreValueWindow(hd, s.entries, s.oldest, |s.placed|, e, None);
    assert LiveEntries(s'.entries, s'.placed) by {
      forall n | 0 <= n < |s.placed| && !s.placed[n].life.Released?
        ensures s'.entries[s.placed[n].home] == s.entries[s.placed[n].home]
      {
        InsertionIsSeparate(s, n);
      }
    }
    ProducerKeepsConsumers(s, s');
  }

  lemma StoreBlockWindow<T>(s: State<T>, block: nat)
    requires Structure(s.headers, |s.entries|)
    requires Window(Last(s.headers), s.entries, s.oldest, |s.placed|, s.producer) && s.producer.TailStored?
    ensures var hd := Last(s.headers);
            var e := hd.index[s.producer.slot];
            Window(hd, s.entries[e := s.entries[e].(value := Some(block))], s.oldest, |s.placed| + 1, Ready)
  {
    var hd, next := Last(s.headers), |s.placed|;
    var e := hd.index[s.producer.slot];
    StoreValueWindow(hd, s.entries, s.oldest, next, e, Some(block));
    var entries' := s.entries[e := s.entries[e].(value := Some(block))];
    assert HoldsKey(entries', hd, next, Some(BLOCK_SIZE * next));
    if next + 1 == s.oldest + |hd.index| {
      SlotPeriod(s.oldest, 1, hd);
      assert HoldsKey(entries', hd, s.oldest, Some(BLOCK_SIZE * s.oldest));
    }
  }

  /** A block put in after the others starts with none of its elements emptied. */
  lemma NewBlockCounters(placed: seq<Placement>, gone: seq<bool>, dequeued: map<nat, nat>, home: nat, block: nat)
    requires Counters(placed, gone, dequeued)
    requires forall n | 0 <= n < |placed| && !placed[n].life.Released? :: placed[n].block != block
    ensures Counters(placed + [Placement(home, block, Live)], gone + seq(BLOCK_SIZE, _ => false), dequeued[block := 0])
  {
    var next, untouched := |placed|, seq(BLOCK_SIZE, _ => false);
    var placed', gone' := placed + [Placement(home, block, Live)], gone + untouched;
    forall n | 0 <= n < |placed'| ensures CounterOk(placed'[n], gone', dequeued[block := 0], n) {
      if n < next {
        assert gone'[BLOCK_SIZE * n..BLOCK_SIZE * n + BLOCK_SIZE] == gone[BLOCK_SIZE * n..BLOCK_SIZE * n + BLOCK_SIZE];
        assert CounterOk(placed[n], gone, dequeued, n);
      } else {
        assert gone'[BLOCK_SIZE * n..BLOCK_SIZE * n + BLOCK_SIZE] == untouched;
        SumZero(untouched, One);
      }
    }
  }

  lemma StoreBlockPlaces<T>(s: State<T>, block: nat)
    requires Inv(s) && Typed(s) && Enabled(s, StoreBlock(block))
    ensures var s' := Apply(s, StoreBlock(block));
            LiveEntries(s'.entries, s'.placed) && DistinctBlocks(s'.placed) && Counters(s'.placed, s'.gone, s'.dequeued)
  {
    var s', next := Apply(s, StoreBlock(block)), |s.placed|;
    forall n | 0 <= n < next && !s.placed[n].life.Released?
      ensures s'.entries[s.placed[n].home] == s.entries[s.placed[n].home]
    {
      InsertionIsSeparate(s, n);
    }
    assert HoldsKey(s.entries, Last(s.headers), next, Some(BLOCK_SIZE * next));
    NewBlockCounters(s.placed, s.gone, s.dequeued, Last(s.headers).index[s.producer.slot], block);
  }

  lemma StoreBlockKeepsInv<T>(s: State<T>, block: nat)
    requires Inv(s) && Typed(s) && Enabled(s, StoreBlock(block))
    ensures Inv(Apply(s, StoreBlock(block)))
  {
    var s', hd := Apply(s, StoreBlock(block)), Last(s.headers);
    StoreValueKeys(s.headers, s.entries, hd.index[s.producer.slot], Some(block));
    StoreBlockWindow(s, block);
    StoreBlockPlaces(s, block);
    ProducerKeepsConsumers(s, s');
  }

  /** Two elements that are not emptied have different cells. */
  lemma CellsDistinct(placed: seq<Placement>, gone: seq<bool>, dequeued: map<nat, nat>, i: nat, k: nat)
    requires Counters(placed, gone, dequeued) && DistinctBlocks(placed)
    requires i < k < |gone| && !gone[i] && !gone[k]
    ensures i / BLOCK_SIZE < |placed| && k / BLOCK_SIZE < |placed|
    ensures (placed[i / BLOCK_SIZE].block, i % BLOCK_SIZE) != (placed[k / BLOCK_SIZE].block, k % BLOCK_SIZE)
  {
    OwedBlockIsLive(placed, gone, dequeued, i);
    OwedBlockIsLive(placed, gone, dequeued, k);
    assert i / BLOCK_SIZE <= k / BLOCK_SIZE;
  }

  lemma EnqueueKeepsCells<T>(s: State<T>, x: T)
    requires Counters(s.placed, s.gone, s.dequeued) && DistinctBlocks(s.placed)
    requires CellsOk(s.items, s.placed, s.gone, s.cells) && ClaimsOk(|s.items|, s.head, s.holder, s.gone)
    requires |s.items| < BLOCK_SIZE * |s.placed|
    ensures CellsOk(s.items + [x], s.placed, s.gone,
                    s.cells[(s.placed[|s.items| / BLOCK_SIZE].block, |s.items| % BLOCK_SIZE) := x])
  {
    var cell := (s.placed[|s.items| / BLOCK_SIZE].block, |s.items| % BLOCK_SIZE);
    forall i | 0 <= i < |s.items| && !s.gone[i] ensures (s.placed[i / BLOCK_SIZE].block, i % BLOCK_SIZE) != cell {
      CellsDistinct(s.placed, s.gone, s.dequeued, i, |s.items|);
    }
  }

  lemma EnqueueKeepsInv<T>(s: State<T>, x: T)
    requires Inv(s) && Typed(s) && Enabled(s, Enqueue(x))
    ensures Inv(Apply(s, Enqueue(x)))
  {
    EnqueueKeepsCells(s, x);
    ProducerKeepsConsumers(s, Apply(s, Enqueue(x)));
  }

  // ---- consumer steps ----

  /** A step by consumer c leaves the others where they were. */
  lemma ConsumerKeepsOthers<T>(s: State<T>, s': State<T>, c: nat)
    requires ConsumersOk(s) && c < |s.consumers| == |s'.consumers|
    requires forall d | 0 <= d < |s.consumers| && d != c :: s'.consumers[d] == s.consumers[d]
    requires s'.headers == s.headers && KeysStay(s.entries, s'.entries)
    requires forall d | d != c :: PlacesStay(s.placed, s'.placed, d)
    requires s'.head == s.head && s'.holder == s.holder && |s'.gone| == |s.gone|
    requires forall i | 0 <= i < s.head && i < |s.holder| && i < |s.gone| && s.holder[i] != c :: s'.gone[i] == s.gone[i]
    requires StageOk(s'.headers, s'.entries, s'.placed, c, s'.consumers[c])
    requires Owed(c, s'.consumers[c], s'.head, s'.holder, s'.gone)
    ensures ConsumersOk(s')
  {
    forall d | 0 <= d < |s'.consumers|
      ensures StageOk(s'.headers, s'.entries, s'.placed, d, s'.consumers[d])
      ensures Owed(d, s'.consumers[d], s'.head, s'.holder, s'.gone)
    {
      if d != c {
        assert StageOk(s.headers, s.entries, s.placed, d, s.consumers[d]) && Owed(d, s.consumers[d], s.head, s.holder, s.gone);
        StageStays(s.headers, s'.headers, s.entries, s'.entries, s.placed, s'.placed, d, s.consumers[d]);
      }
    }
  }

  lemma ClaimKeepsInv<T>(s: State<T>, count: nat)
    requires Inv(s) && Typed(s) && Enabled(s, Claim(count))
    ensures Inv(Apply(s, Claim(count)))
  {
    var s', c := Apply(s, Claim(count)), |s.consumers|;
    forall d | 0 <= d < |s'.consumers|
      ensures StageOk(s'.headers, s'.entries, s'.placed, d, s'.consumers[d])
      ensures Owed(d, s'.consumers[d], s'.head, s'.holder, s'.gone)
    {
      if d < c {
        assert StageOk(s.headers, s.entries, s.placed, d, s.consumers[d]) && Owed(d, s.consumers[d], s.head, s.holder, s.gone);
      }
    }
  }

  /** Once indices are claimed, the header published last reaches their blocks. */
  lemma CurrentHeaderReaches<T>(s: State<T>, c: nat)
    requires Structure(s.headers, |s.entries|) && LiveEntries(s.entries, s.placed)
    requires Counters(s.placed, s.gone, s.dequeued)
    requires c < |s.consumers| && Owed(c, s.consumers[c], s.head, s.holder, s.gone) && s.consumers[c].lo < s.consumers[c].hi
    ensures Reaches(s.headers, s.placed, |s.headers| - 1, s.consumers[c].lo, s.consumers[c].hi)
  {
    var me := s.consumers[c];
    forall n: int | me.lo / BLOCK_SIZE <= n && BLOCK_SIZE * n < me.hi
      ensures 0 <= n < |s.placed| && s.placed[n].home < |s.entries|
    {
      var i := if BLOCK_SIZE * n < me.lo then me.lo else BLOCK_SIZE * n;
      assert i / BLOCK_SIZE == n;
      OwedBlockIsLive(s.placed, s.gone, s.dequeued, i);
    }
  }

  lemma TailKeyIsValid<T>(s: State<T>, h: nat)
    requires Structure(s.headers, |s.entries|) && OldKeys(s.headers, s.entries)
    requires Window(Last(s.headers), s.entries, s.oldest, |s.placed|, s.producer) && |s.placed| > 0
    requires h < |s.headers|
    ensures var hd := s.headers[h];
            hd.tail < |hd.index| && hd.index[hd.tail] < |s.entries| && s.entries[hd.index[hd.tail]].key.Some?
  {
    var hd, next := s.headers[h], |s.placed|;
    Pow2Divides(INITIAL_LOG + h, INITIAL_LOG + |s.headers| - 1);
    if h == |s.headers| - 1 {
      if s.producer.TailStored? {
        assert HoldsKey(s.entries, hd, next, Some(BLOCK_SIZE * next));
      } else {
        assert HoldsKey(s.entries, hd, next - 1, Some(BLOCK_SIZE * (next - 1)));
      }
    } else {
      assert hd.index[hd.tail] < |hd.pos|;
    }
  }

  lemma ReadTailKeyOk<T>(s: State<T>, c: nat)
    requires Structure(s.headers, |s.entries|) && Phases(s.headers, s.entries)
    requires c < |s.consumers| && s.consumers[c].stage.HasTail?
    requires StageOk(s.headers, s.entries, s.placed, c, s.consumers[c])
    ensures var me := s.consumers[c];
            var key := KeyWord(s.entries[s.headers[me.stage.h].index[me.stage.tail]].key);
            StageOk(s.headers, s.entries, s.placed, c, me.(stage := HasTailKey(me.stage.h, me.stage.tail, key)))
  {
    var me := s.consumers[c];
    var hd := s.headers[me.stage.h];
    var e := hd.index[me.stage.tail];
    assert KeyFits(s.entries[e].key, hd.pos[e], hd);
  }

  lemma LocateOk<T>(s: State<T>, c: nat)
    requires Structure(s.headers, |s.entries|)
    requires c < |s.consumers| && s.consumers[c].stage.HasTailKey?
    requires StageOk(s.headers, s.entries, s.placed, c, s.consumers[c])
    ensures var me := s.consumers[c];
            var hd := s.headers[me.stage.h];
            var slot := LookupSlot(me.stage.tail, me.lo / BLOCK_SIZE * BLOCK_SIZE, me.stage.base, |hd.index|);
            StageOk(s.headers, s.entries, s.placed, c, me.(stage := Walking(me.stage.h, slot)))
  {
    var me := s.consumers[c];
    var hd := s.headers[me.stage.h];
    assert me.stage.base == me.stage.base / BLOCK_SIZE * BLOCK_SIZE;
    LookupLandsOnSlot(hd, INITIAL_LOG + me.stage.h, me.stage.tail, me.lo / BLOCK_SIZE, me.stage.base / BLOCK_SIZE);
  }

  lemma LoadBlockOk<T>(s: State<T>, c: nat)
    requires Structure(s.headers, |s.entries|) && Phases(s.headers, s.entries) && LiveEntries(s.entries, s.placed)
    requires Counters(s.placed, s.gone, s.dequeued)
    requires At(s, c) && s.consumers[c].stage.Walking?
    requires StageOk(s.headers, s.entries, s.placed, c, s.consumers[c])
    requires Owed(c, s.consumers[c], s.head, s.holder, s.gone)
    ensures var me := s.consumers[c];
            var e := s.headers[me.stage.h].index[me.stage.slot];
            e < |s.entries| && StageOk(s.headers, s.entries, s.placed, c,
              me.(stage := Reading(me.stage.h, me.stage.slot, s.entries[e].value)))
  {
    var me := s.consumers[c];
    OwedBlockIsLive(s.placed, s.gone, s.dequeued, me.lo);
    BlockIsInItsSlot(s, me.stage.h, me.lo / BLOCK_SIZE);
  }

  lemma SetStageKeepsInv<T>(s: State<T>, c: nat, st: Stage)
    requires Inv(s) && c < |s.consumers|
    requires StageOk(s.headers, s.entries, s.placed, c, s.consumers[c].(stage := st))
    ensures Inv(SetStage(s, c, st))
  {
    assert Owed(c, s.consumers[c], s.head, s.holder, s.gone);
    ConsumerKeepsOthers(s, SetStage(s, c, st), c);
  }

  lemma ReadHeaderKeepsInv<T>(s: State<T>, c: nat)
    requires Inv(s) && At(s, c)
    ensures Inv(SetStage(s, c, HasHeader(|s.headers| - 1)))
  {
    assert Owed(c, s.consumers[c], s.head, s.holder, s.gone);
    CurrentHeaderReaches(s, c);
    SetStageKeepsInv(s, c, HasHeader(|s.headers| - 1));
  }

  lemma ReadTailKeepsInv<T>(s: State<T>, c: nat)
    requires Inv(s) && At(s, c) && s.consumers[c].stage.HasHeader?
    ensures s.consumers[c].stage.h < |s.headers|
    ensures Inv(SetStage(s, c, HasTail(s.consumers[c].stage.h, s.headers[s.consumers[c].stage.h].tail)))
  {
    var me := s.consumers[c];
    assert StageOk(s.headers, s.entries, s.placed, c, me) && Owed(c, me, s.head, s.holder, s.gone);
    OwedBlockIsLive(s.placed, s.gone, s.dequeued, me.lo);
    TailKeyIsValid(s, me.stage.h);
    SetStageKeepsInv(s, c, HasTail(me.stage.h, s.headers[me.stage.h].tail));
  }

  lemma ReadTailKeyKeepsInv<T>(s: State<T>, c: nat)
    requires Inv(s) && Typed(s) && Enabled(s, ReadTailKey(c))
    ensures Inv(Apply(s, ReadTailKey(c)))
  {
    assert StageOk(s.headers, s.entries, s.placed, c, s.consumers[c]) && Owed(c, s.consumers[c], s.head, s.holder, s.gone);
    ReadTailKeyOk(s, c);
    SetStageKeepsInv(s, c, Apply(s, ReadTailKey(c)).consumers[c].stage);
  }

  lemma LocateKeepsInv<T>(s: State<T>, c: nat)
    requires Inv(s) && Typed(s) && Enabled(s, Locate(c))
    ensures Inv(Apply(s, Locate(c)))
  {
    assert StageOk(s.headers, s.entries, s.placed, c, s.consumers[c]) && Owed(c, s.consumers[c], s.head, s.holder, s.gone);
    LocateOk(s, c);
    SetStageKeepsInv(s, c, Apply(s, Locate(c)).consumers[c].stage);
  }

  lemma LoadBlockKeepsInv<T>(s: State<T>, c: nat)
    requires Inv(s) && Typed(s) && Enabled(s, LoadBlock(c))
    ensures Inv(Apply(s, LoadBlock(c)))
  {
    assert StageOk(s.headers, s.entries, s.placed, c, s.consumers[c]) && Owed(c, s.consumers[c], s.head, s.holder, s.gone);
    LoadBlockOk(s, c);
    SetStageKeepsInv(s, c, Apply(s, LoadBlock(c)).consumers[c].stage);
  }

  // ---- emptying and releasing ----

  /** Emptying part of block n moves only block n's tally. */
  lemma EmptyTally(gone: seq<bool>, n: nat, lo: nat, end: nat, m: nat)
    requires BLOCK_SIZE * m + BLOCK_SIZE <= |gone| && end <= |gone|
    requires BLOCK_SIZE * n <= lo <= end <= BLOCK_SIZE * n + BLOCK_SIZE
    requires forall i | lo <= i < end :: !gone[i]
    ensures EmptiedIn(MarkGone(gone, lo, end), m) == EmptiedIn(gone, m) + (if m == n then end - lo else 0)
  {
    var gone' := MarkGone(gone, lo, end);
    var old_, new_ := gone[BLOCK_SIZE * m..BLOCK_SIZE * m + BLOCK_SIZE], gone'[BLOCK_SIZE * m..BLOCK_SIZE * m + BLOCK_SIZE];
    if m == n {
      SumRange(old_, new_, One, lo - BLOCK_SIZE * n, end - BLOCK_SIZE * n, 1);
    } else {
      SumRange(old_, new_, One, 0, 0, 0);
    }
  }

  lemma ReadingFacts<T>(s: State<T>, c: nat)
    requires Inv(s) && c < |s.consumers| && s.consumers[c].stage.Reading?
    ensures var me := s.consumers[c];
            var n := me.lo / BLOCK_SIZE;
            && me.lo < me.hi <= s.head <= |s.items| <= |s.gone| && n < |s.placed| && s.placed[n].life.Live?
            && me.stage.block == Some(s.placed[n].block)
            && s.placed[n].block in s.dequeued && s.dequeued[s.placed[n].block] == EmptiedIn(s.gone, n)
            && BLOCK_SIZE * n <= me.lo < BlockEnd(me) <= BLOCK_SIZE * n + BLOCK_SIZE
            && (forall i | me.lo <= i < me.hi :: s.holder[i] == c && !s.gone[i])
  {
    var me := s.consumers[c];
    assert StageOk(s.headers, s.entries, s.placed, c, me) && Owed(c, me, s.head, s.holder, s.gone);
    OwedBlockIsLive(s.placed, s.gone, s.dequeued, me.lo);
    assert CounterOk(s.placed[me.lo / BLOCK_SIZE], s.gone, s.dequeued, me.lo / BLOCK_SIZE);
  }

  lemma SetEmptyCounters<T>(s: State<T>, c: nat)
    requires Inv(s) && Typed(s) && Enabled(s, SetEmpty(c))
    ensures var s' := Emptied(s, c); Counters(s'.placed, s'.gone, s'.dequeued)
  {
    var s', me := Emptied(s, c), s.consumers[c];
    var n, end := me.lo / BLOCK_SIZE, BlockEnd(me);
    ReadingFacts(s, c);
    forall m | 0 <= m < |s'.placed| ensures CounterOk(s'.placed[m], s'.gone, s'.dequeued, m) {
      EmptyTally(s.gone, n, me.lo, end, m);
      assert CounterOk(s.placed[m], s.gone, s.dequeued, m);
      EmptyBound(s'.gone, m);
    }
  }

  lemma EmptyBound(gone: seq<bool>, m: nat)
    requires BLOCK_SIZE * m + BLOCK_SIZE <= |gone|
    ensures EmptiedIn(gone, m) <= BLOCK_SIZE
  {
    AtMostAll(gone[BLOCK_SIZE * m..BLOCK_SIZE * m + BLOCK_SIZE]);
  }

  /** After a block, the next slot of the same header is the slot of the next block. */
  lemma OnwardOk(headers: seq<Header>, entries: seq<Entry>, placed: seq<Placement>, c: nat, me: Consumer, n: nat, lo: nat)
    requires me.stage.Reading? || me.stage.Releasing?
    requires me.lo <= lo <= me.hi && Reaches(headers, placed, me.stage.h, me.lo, me.hi)
    requires |headers[me.stage.h].index| > 0 && me.stage.slot == Slot(n, headers[me.stage.h])
    requires lo < me.hi ==> lo / BLOCK_SIZE == n + 1
    ensures StageOk(headers, entries, placed, c, Onward(me, lo, |headers[me.stage.h].index|))
  {
    SlotStep(n, 1, headers[me.stage.h]);
    assert Reaches(headers, placed, me.stage.h, lo, me.hi);
  }

  lemma SetEmptyStage(headers: seq<Header>, entries: seq<Entry>, placed: seq<Placement>, placed': seq<Placement>,
                      c: nat, me: Consumer)
    requires StageOk(headers, entries, placed, c, me) && me.stage.Reading? && |placed'| == |placed|
    requires forall n | 0 <= n < |placed| :: placed'[n].home == placed[n].home
    ensures StageOk(headers, entries, placed', c, Onward(me, BlockEnd(me), |headers[me.stage.h].index|))
    ensures placed'[me.lo / BLOCK_SIZE].life == Draining(c) ==>
              StageOk(headers, entries, placed', c,
                      Consumer(BlockEnd(me), me.hi, Releasing(me.stage.h, me.stage.slot, me.lo / BLOCK_SIZE)))
  {
    var n, end := me.lo / BLOCK_SIZE, BlockEnd(me);
    assert end < me.hi ==> end / BLOCK_SIZE == n + 1;
    assert Reaches(headers, placed', me.stage.h, me.lo, me.hi);
    OnwardOk(headers, entries, placed', c, me, n, end);
  }

  lemma DrainKeepsPlaces(entries: seq<Entry>, placed: seq<Placement>, n: nat, c: nat)
    requires LiveEntries(entries, placed) && DistinctBlocks(placed) && n < |placed| && placed[n].life.Live?
    ensures var placed' := placed[n := placed[n].(life := Draining(c))];
            LiveEntries(entries, placed') && DistinctBlocks(placed') && forall d :: PlacesStay(placed, placed', d)
  {
  }

  lemma MarkGoneKeepsCells<T>(items: seq<T>, placed: seq<Placement>, placed': seq<Placement>, gone: seq<bool>,
                              cells: map<(nat, nat), T>, head: nat, holder: seq<nat>, lo: nat, end: nat)
    requires CellsOk(items, placed, gone, cells) && ClaimsOk(|items|, head, holder, gone) && end <= head
    requires |placed'| == |placed| && forall n | 0 <= n < |placed| :: placed'[n].block == placed[n].block
    ensures CellsOk(items, placed', MarkGone(gone, lo, end), cells)
    ensures ClaimsOk(|items|, head, holder, MarkGone(gone, lo, end))
  {
  }

  lemma SetEmptyKeepsInv<T>(s: State<T>, c: nat)
    requires Inv(s) && Typed(s) && Enabled(s, SetEmpty(c))
    ensures Inv(Apply(s, SetEmpty(c)))
  {
    var s', me := Emptied(s, c), s.consumers[c];
    ReadingFacts(s, c);
    SetEmptyCounters(s, c);
    DrainKeepsPlaces(s.entries, s.placed, me.lo / BLOCK_SIZE, c);
    MarkGoneKeepsCells(s.items, s.placed, s'.placed, s.gone, s.cells, s.head, s.holder, me.lo, BlockEnd(me));
    SetEmptyConsumers(s, c);
  }

  lemma SetEmptyConsumers<T>(s: State<T>, c: nat)
    requires Typed(s) && Enabled(s, SetEmpty(c)) && ConsumersOk(s) && s.placed[s.consumers[c].lo / BLOCK_SIZE].life.Live?
    ensures ConsumersOk(Emptied(s, c))
  {
    var s', me := Emptied(s, c), s.consumers[c];
    assert StageOk(s.headers, s.entries, s.placed, c, me) && Owed(c, me, s.head, s.holder, s.gone);
    SetEmptyStage(s.headers, s.entries, s.placed, s'.placed, c, me);
    ConsumerKeepsOthers(s, s', c);
  }

  lemma ReleaseKeepsEntries<T>(s: State<T>, c: nat)
    requires Inv(s) && Typed(s) && Enabled(s, ReleaseBlock(c))
    ensures var s' := Freed(s, c);
            && Phases(s'.headers, s'.entries) && OldKeys(s'.headers, s'.entries) && KeysStay(s.entries, s'.entries)
            && Window(Last(s'.headers), s'.entries, s'.oldest, |s'.placed|, s'.producer)
            && LiveEntries(s'.entries, s'.placed)
  {
    var me := s.consumers[c];
    assert StageOk(s.headers, s.entries, s.placed, c, me);
    BlockIsInItsSlot(s, me.stage.h, me.stage.number);
    var e := s.placed[me.stage.number].home;
    StoreValueKeys(s.headers, s.entries, e, None);
    StoreValueWindow(Last(s.headers), s.entries, s.oldest, |s.placed|, e, None);
  }

  lemma ReleaseCounters(placed: seq<Placement>, gone: seq<bool>, dequeued: map<nat, nat>, n: nat)
    requires Counters(placed, gone, dequeued) && DistinctBlocks(placed) && n < |placed| && placed[n].life.Draining?
    ensures var placed' := placed[n := placed[n].(life := Released)];
            Counters(placed', gone, dequeued) && DistinctBlocks(placed')
  {
    var placed' := placed[n := placed[n].(life := Released)];
    forall m | 0 <= m < |placed'| ensures CounterOk(placed'[m], gone, dequeued, m) {
      assert CounterOk(placed[m], gone, dequeued, m);
    }
  }

  lemma ReleaseConsumers<T>(s: State<T>, c: nat)
    requires ConsumersOk(s) && Typed(s) && Enabled(s, ReleaseBlock(c)) && KeysStay(s.entries, Freed(s, c).entries)
    ensures ConsumersOk(Freed(s, c))
  {
    var s', me := Freed(s, c), s.consumers[c];
    assert StageOk(s.headers, s.entries, s.placed, c, me) && Owed(c, me, s.head, s.holder, s.gone);
    assert Reaches(s.headers, s'.placed, me.stage.h, me.lo, me.hi);
    OnwardOk(s.headers, s'.entries, s'.placed, c, me, me.stage.number, me.lo);
    ConsumerKeepsOthers(s, s', c);
  }

  lemma ReleaseKeepsInv<T>(s: State<T>, c: nat)
    requires Inv(s) && Typed(s) && Enabled(s, ReleaseBlock(c))
    ensures Inv(Apply(s, ReleaseBlock(c)))
  {
    assert StageOk(s.headers, s.entries, s.placed, c, s.consumers[c]);
    ReleaseKeepsEntries(s, c);
    ReleaseConsumers(s, c);
    ReleaseCounters(s.placed, s.gone, s.dequeued, s.consumers[c].stage.number);
  }

  // ---- runs ----

  lemma InitHasInv<T>(s: State<T>)
    requires Init(s)
    ensures Inv(s)
  {
    assert Pow2(5) == 32;
    var hd := s.headers[0];
    assert Bijective(hd);
    ModShift(-1, 1, 32);
  }

  lemma StepKeepsInv<T(!new)>(s: State<T>, s': State<T>)
    requires Inv(s) && Next(s, s')
    ensures Inv(s')
  {
    var a: Action<T> :| Enabled(s, a) && s' == Apply(s, a);
    if IsLookup(a) {
      LookupKeepsInv(s, s', a);
    } else if a.Claim? || a.SetEmpty? || a.ReleaseBlock? {
      ConsumerKeepsInv(s, s', a);
    } else {
      ProducerKeepsInv(s, s', a);
    }
  }

  predicate IsLookup<T>(a: Action<T>) { a.ReadHeader? || a.ReadTail? || a.ReadTailKey? || a.Locate? || a.LoadBlock? }

  lemma ProducerKeepsInv<T>(s: State<T>, s': State<T>, a: Action<T>)
    requires Inv(s) && Typed(s) && Enabled(s, a)
    requires a.StoreKey? || a.Grow? || a.StoreTail? || a.RewindTail? || a.ClearValue? || a.StoreBlock? || a.Enqueue?
    requires s' == Apply(s, a)
    ensures Inv(s')
  {
    match a
    case StoreKey => StoreKeyKeepsInv(s);
    case Grow(garbage) => GrowKeepsInv(s, garbage);
    case StoreTail => StoreTailKeepsInv(s);
    case RewindTail => RewindTailKeepsInv(s);
    case ClearValue => ClearValueKeepsInv(s);
    case StoreBlock(block) => StoreBlockKeepsInv(s, block);
    case Enqueue(x) => EnqueueKeepsInv(s, x);
  }

  lemma ConsumerKeepsInv<T>(s: State<T>, s': State<T>, a: Action<T>)
    requires Inv(s) && Typed(s) && Enabled(s, a) && (a.Claim? || a.SetEmpty? || a.ReleaseBlock?)
    requires s' == Apply(s, a)
    ensures Inv(s')
  {
    match a
    case Claim(count) => ClaimKeepsInv(s, count);
    case SetEmpty(c) => SetEmptyKeepsInv(s, c);
    case ReleaseBlock(c) => ReleaseKeepsInv(s, c);
  }

  lemma LookupKeepsInv<T>(s: State<T>, s': State<T>, a: Action<T>)
    requires Inv(s) && Typed(s) && Enabled(s, a) && IsLookup(a)
    requires s' == Apply(s, a)
    ensures Inv(s')
  {
    match a
    case ReadHeader(c) => ReadHeaderKeepsInv(s, c);
    case ReadTail(c) => ReadTailKeepsInv(s, c);
    case ReadTailKey(c) => ReadTailKeyKeepsInv(s, c);
    case Locate(c) => LocateKeepsInv(s, c);
    case LoadBlock(c) => LoadBlockKeepsInv(s, c);
  }

  lemma {:induction false} RunKeepsInv<T(!new)>(run: seq<State<T>>, i: nat)
    requires Run(run) && i < |run|
    ensures Inv(run[i]) && Typed(run[i])
  {
    if i == 0 {
      InitHasInv(run[0]);
    } else {
      RunKeepsInv(run, i - 1);
      StepKeepsInv(run[i - 1], run[i]);
    }
    InvIsTyped(run[i]);
  }

  /** In every state of every run, a consumer that has worked out a slot, for whatever header, tail and
      tail key it happened to read after claiming, is at the entry whose key is its block's base and
      whose block is the one the producer filled. */
  lemma LookupFindsTheBlock<T(!new)>(run: seq<State<T>>, i: nat, c: nat)
    requires Run(run) && i < |run| && At(run[i], c) && run[i].consumers[c].stage.Walking?
    ensures Typed(run[i])
    ensures var s := run[i];
            var me := s.consumers[c];
            var n := me.lo / BLOCK_SIZE;
            var e := s.headers[me.stage.h].index[me.stage.slot];
            && n < |s.placed| && e == s.placed[n].home
            && s.entries[e] == Entry(Some(BLOCK_SIZE * n), Some(s.placed[n].block))
  {
    var s := run[i];
    var me := s.consumers[c];
    RunKeepsInv(run, i);
    assert StageOk(s.headers, s.entries, s.placed, c, me) && Owed(c, me, s.head, s.holder, s.gone);
    OwedBlockIsLive(s.placed, s.gone, s.dequeued, me.lo);
    BlockIsInItsSlot(s, me.stage.h, me.lo / BLOCK_SIZE);
  }

  /** A consumer about to read elements finds, in the block it loaded, exactly the items enqueued at
      the indices it claimed, and its next step (emptying them) is never blocked. */
  lemma ConsumerReadsItsItems<T(!new)>(run: seq<State<T>>, i: nat, c: nat, k: nat)
    requires Run(run) && i < |run| && c < |run[i].consumers| && run[i].consumers[c].stage.Reading?
    requires run[i].consumers[c].lo <= k < BlockEnd(run[i].consumers[c])
    ensures var s := run[i];
            var b := s.consumers[c].stage.block;
            && b.Some? && k < |s.items|
            && (b.value, k % BLOCK_SIZE) in s.cells && s.cells[(b.value, k % BLOCK_SIZE)] == s.items[k]
    ensures Typed(run[i]) && Enabled(run[i], SetEmpty(c))
  {
    RunKeepsInv(run, i);
    ReadingFacts(run[i], c);
    ReadingCell(run[i], c, k);
  }

  lemma ReadingCell<T>(s: State<T>, c: nat, k: nat)
    requires Inv(s) && c < |s.consumers| && s.consumers[c].stage.Reading?
    requires s.consumers[c].lo <= k < BlockEnd(s.consumers[c])
    ensures var b := s.consumers[c].stage.block;
            && b.Some? && k < |s.items|
            && (b.value, k % BLOCK_SIZE) in s.cells && s.cells[(b.value, k % BLOCK_SIZE)] == s.items[k]
  {
    ReadingFacts(s, c);
    assert k / BLOCK_SIZE == s.consumers[c].lo / BLOCK_SIZE;
  }

  /** Two consumers never release the same block, and a block is released only when all of its
      elements have been emptied. */
  lemma ReleaseIsExclusive<T(!new)>(run: seq<State<T>>, i: nat, c: nat, k: nat)
    requires Run(run) && i < |run| && c < |run[i].consumers| && run[i].consumers[c].stage.Releasing?
    requires BLOCK_SIZE * run[i].consumers[c].stage.number <= k < BLOCK_SIZE * run[i].consumers[c].stage.number + BLOCK_SIZE
    ensures k < |run[i].gone| && run[i].gone[k]
    ensures forall d | 0 <= d < |run[i].consumers| && d != c && run[i].consumers[d].stage.Releasing? ::
              run[i].consumers[d].stage.number != run[i].consumers[c].stage.number
  {
    RunKeepsInv(run, i);
    ReleaserFacts(run[i], c, k);
    forall d | 0 <= d < |run[i].consumers| && d != c && run[i].consumers[d].stage.Releasing?
      ensures run[i].consumers[d].stage.number != run[i].consumers[c].stage.number
    {
      ReleaserFacts(run[i], d, BLOCK_SIZE * run[i].consumers[d].stage.number);
    }
  }

  lemma ReleaserFacts<T>(s: State<T>, c: nat, k: nat)
    requires ConsumersOk(s) && Counters(s.placed, s.gone, s.dequeued)
    requires c < |s.consumers| && s.consumers[c].stage.Releasing? && k / BLOCK_SIZE == s.consumers[c].stage.number
    ensures k < |s.gone| && s.gone[k]
    ensures s.placed[s.consumers[c].stage.number].life == Draining(c)
  {
    assert StageOk(s.headers, s.entries, s.placed, c, s.consumers[c]);
    if !s.gone[k] {
      OwedBlockIsLive(s.placed, s.gone, s.dequeued, k);
    }
  }

  /** An index once claimed keeps its holder, and once emptied stays so. */
  ghost predicate HistoryGrows<T>(s: State<T>, s': State<T>) {
    && s.holder <= s'.holder && |s.gone| <= |s'.gone|
    && forall k | 0 <= k < |s.gone| && s.gone[k] :: s'.gone[k]
  }

  lemma ActionGrowsHistory<T>(s: State<T>, a: Action<T>)
    requires Typed(s) && Enabled(s, a)
    ensures HistoryGrows(s, Apply(s, a))
  {
  }
}
