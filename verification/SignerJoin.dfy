/**
  The signer pool and the join handshake (JOIN, RESPONSE_1, SUCCESS, LEAVE).
  Clocks, nonces and cryptography enter with the message: the time it is handled, the nonce drawn for it,
  the nonces its signature verifies against, and the shared key its public key yields.
 */
module SignerJoin {
  import opened Wrappers

  const JOIN_TIMEOUT_SEC: int := 10
  const MAX_SIGNER_NUM: nat := 200
  const WORD: int := 0x1_0000_0000_0000_0000

  type Id = string

  datatype Status = Temporary | Good

  datatype Signer = Signer(id: Id, cert: string, key: nat, status: Status)

  datatype JoinData = JoinData(nonce: nat, cert: string, key: Option<nat>, start: int, lock: bool)

  datatype Msg =
    | Join(id: Id, now: int, nonce: nat)
    | Response1(id: Id, now: int, cert: string, signs: set<nat>, key: Option<nat>)
    | Success(id: Id, now: int)
    | Leave(id: Id)
    | Other(id: Id)

  datatype Reply = Challenge(nonce: nat) | Response2 | Accept | Silent
                 | MaxSignerPool | IllegalAccess | Timeout | InvalidSig | InvalidPk
                 | Crash

  datatype State = State(table: map<Id, JoinData>, pool: seq<Signer>)

  /** The time since the join began, in 64-bit arithmetic: a clock set back counts as late. */
  function Elapsed(now: int, start: int): int { (now - start) % WORD }

  predicate Late(now: int, start: int) { Elapsed(now, start) > JOIN_TIMEOUT_SEC }

  // ---- the pool as a list ----

  function Find(pool: seq<Signer>, id: Id): (i: nat)
    ensures i <= |pool| && (i < |pool| ==> pool[i].id == id)
    ensures forall j | 0 <= j < i :: pool[j].id != id
  {
    if pool == [] || pool[0].id == id then 0 else 1 + Find(pool[1..], id)
  }

  function Pushed(pool: seq<Signer>, x: Signer): seq<Signer> {
    var i := Find(pool, x.id);
    if i == |pool| then pool + [x] else pool[i := x]
  }

  function Updated(pool: seq<Signer>, id: Id, status: Status): seq<Signer> {
    var i := Find(pool, id);
    if i == |pool| then pool else pool[i := pool[i].(status := status)]
  }

  function Removed(pool: seq<Signer>, id: Id): seq<Signer> {
    var i := Find(pool, id);
    if i == |pool| then pool else pool[..i] + pool[i + 1..]
  }

  ghost predicate UniqueIds(pool: seq<Signer>) {
    forall i, j | 0 <= i < j < |pool| :: pool[i].id != pool[j].id
  }

  /** The entry of a signer, and its status, if in the pool. */
  function EntryOf(pool: seq<Signer>, id: Id): Option<Signer> {
    var i := Find(pool, id);
    if i == |pool| then None else Some(pool[i])
  }

  function StatusOf(pool: seq<Signer>, id: Id): Option<Status> {
    var e := EntryOf(pool, id);
    if e.None? then None else Some(e.value.status)
  }

  lemma FindUnique(pool: seq<Signer>, id: Id, i: nat)
    requires UniqueIds(pool) && i < |pool| && pool[i].id == id
    ensures Find(pool, id) == i
  {
    var k := Find(pool, id);
    assert k <= i;
  }

  lemma FindNone(pool: seq<Signer>, id: Id)
    requires forall i | 0 <= i < |pool| :: pool[i].id != id
    ensures EntryOf(pool, id) == None
  {
  }

  lemma PushSets(pool: seq<Signer>, x: Signer, id: Id)
    requires UniqueIds(pool)
    ensures UniqueIds(Pushed(pool, x))
    ensures EntryOf(Pushed(pool, x), id) == if id == x.id then Some(x) else EntryOf(pool, id)
  {
    var p := Pushed(pool, x);
    var k := Find(pool, x.id);
    if id == x.id {
      FindUnique(p, id, k);
    } else {
      if k < |pool| {
        ReplaceKeeps(pool, k, x, id);
      }
      SameEntry(pool, p, id);
    }
  }

  lemma UpdateSets(pool: seq<Signer>, who: Id, status: Status, id: Id)
    requires UniqueIds(pool)
    ensures UniqueIds(Updated(pool, who, status))
    ensures var e := EntryOf(pool, id);
            EntryOf(Updated(pool, who, status), id) == if id == who && e.Some? then Some(e.value.(status := status)) else e
  {
    var p := Updated(pool, who, status);
    var k := Find(pool, who);
    if id == who && k < |pool| {
      FindUnique(p, id, k);
    } else {
      if k < |pool| {
        ReplaceKeeps(pool, k, p[k], id);
      }
      SameEntry(pool, p, id);
    }
  }

  lemma RemoveSets(pool: seq<Signer>, who: Id, id: Id)
    requires UniqueIds(pool)
    ensures UniqueIds(Removed(pool, who))
    ensures EntryOf(Removed(pool, who), id) == if id == who then None else EntryOf(pool, id)
  {
    var p := Removed(pool, who);
    if id == who {
      FindNone(p, id);
    } else {
      SameEntry(pool, p, id);
    }
  }

  lemma ReplaceKeeps(pool: seq<Signer>, k: nat, y: Signer, id: Id)
    requires k < |pool| && pool[k].id != id && y.id != id
    ensures forall x: Signer | x.id == id :: (x in pool <==> x in pool[k := y])
  {
    var p := pool[k := y];
    forall x: Signer | x.id == id ensures x in pool <==> x in p {
      if x in pool {
        var i :| 0 <= i < |pool| && pool[i] == x;
        assert p[i] == x;
      }
      if x in p {
        var i :| 0 <= i < |p| && p[i] == x;
        assert pool[i] == x;
      }
    }
  }

  /** Lists with the same entries for an id give it the same one. */
  lemma SameEntry(pool: seq<Signer>, pool': seq<Signer>, id: Id)
    requires UniqueIds(pool) && UniqueIds(pool')
    requires forall x: Signer | x.id == id :: (x in pool <==> x in pool')
    ensures EntryOf(pool', id) == EntryOf(pool, id)
  {
    var i, j := Find(pool, id), Find(pool', id);
    assert forall k | 0 <= k < |pool'| && pool'[k].id == id :: pool'[k] in pool;
    if i < |pool| {
      assert pool[i] in pool';
      var k :| 0 <= k < |pool'| && pool'[k] == pool[i];
      FindUnique(pool', id, k);
    }
  }

  // ---- one message ----

  function Erased(table: map<Id, JoinData>, id: Id): map<Id, JoinData> { map k | k in table && k != id :: table[k] }

  /** What handleMessage makes of a message, and answers. */
  function Handle(s: State, m: Msg): (State, Reply) {
    match m
    case Join(id, now, nonce) =>
      if MAX_SIGNER_NUM <= |s.pool| then (s, MaxSignerPool)
      else (s.(table := s.table[id := JoinData(nonce, "", None, now, true)]), Challenge(nonce))
    case Response1(id, now, cert, signs, key) =>
      if id !in s.table then (s, IllegalAccess)
      else if Late(now, s.table[id].start) then (s, Timeout)
      else if s.table[id].nonce !in signs then (s, InvalidSig)
      else if key.None? then (s.(table := s.table[id := s.table[id].(cert := cert)]), InvalidPk)
      else
        (State(s.table[id := s.table[id].(cert := cert, key := key, lock := false)],
               Pushed(s.pool, Signer(id, cert, key.value, Temporary))), Response2)
    case Success(id, now) =>
      if id !in s.table then (s, Crash)
      else if Late(now, s.table[id].start) then (s, Timeout)
      else (State(Erased(s.table, id), Updated(s.pool, id, Good)), Accept)
    case Leave(id) =>
      (State(if id in s.table && !s.table[id].lock then Erased(s.table, id) else s.table, Removed(s.pool, id)), Silent)
    case Other(_) => (s, Silent)
  }

  // ---- the objects ----

  class SignerPool {
    var signers: seq<Signer>

    method FindIter(id: Id) returns (i: nat)
      ensures i == Find(signers, id)
    {
      i := 0;
      while i < |signers| && signers[i].id != id
        invariant i <= |signers| && Find(signers, id) == i + Find(signers[i..], id)
      {
        assert signers[i..][1..] == signers[i + 1..];
        i := i + 1;
      }
    }

    method PushSigner(id: Id, cert: string, key: nat, status: Status)
      modifies this
      ensures signers == Pushed(old(signers), Signer(id, cert, key, status))
    {
      var x := Signer(id, cert, key, status);
      var i := FindIter(id);
      if i == |signers| {
        signers := signers + [x];
      } else {
        signers := signers[i := x];
      }
    }

    method UpdateStatus(id: Id, status: Status) returns (found: bool)
      modifies this
      ensures signers == Updated(old(signers), id, status) && (found <==> StatusOf(old(signers), id).Some?)
    {
      var i := FindIter(id);
      found := i < |signers|;
      if found {
        signers := signers[i := signers[i].(status := status)];
      }
    }

    method RemoveSigner(id: Id) returns (found: bool)
      modifies this
      ensures signers == Removed(old(signers), id) && (found <==> StatusOf(old(signers), id).Some?)
    {
      var i := FindIter(id);
      found := i < |signers|;
      if found {
        signers := signers[..i] + signers[i + 1..];
      }
    }

    /** getNumSignerBy */
    method NumSignerBy(status: Status) returns (n: nat)
      ensures n == |OfStatus(signers, status)|
    {
      n := 0;
      for i := 0 to |signers|
        invariant n == |OfStatus(signers[..i], status)|
      {
        assert signers[..i + 1][..i] == signers[..i];
        if signers[i].status == status {
          n := n + 1;
        }
      }
      assert signers[..|signers|] == signers;
    }

    /** getRandomSigners: good signers of the pool with different ids.  The code reads past the end when asked
        for more than there are. */
    method RandomSigners(number: nat) returns (chosen: seq<Signer>)
      requires UniqueIds(signers) && number <= |OfStatus(signers, Good)|
      ensures |chosen| == number && UniqueIds(chosen)
      ensures forall i | 0 <= i < number :: chosen[i] in signers && chosen[i].status == Good
    {
      var good: seq<Signer> := [];
      for i := 0 to |signers|
        invariant good == OfStatus(signers[..i], Good)
      {
        assert signers[..i + 1][..i] == signers[..i];
        if signers[i].status == Good {
          good := good + [signers[i]];
        }
      }
      assert signers[..|signers|] == signers;
      OfStatusIs(signers, Good);
      good := Shuffle(good);
      chosen := good[..number];
    }
  }

  /** The signers with a status, in order. */
  function OfStatus(pool: seq<Signer>, status: Status): seq<Signer> {
    if pool == [] then []
    else
      var last := pool[|pool| - 1];
      OfStatus(pool[..|pool| - 1], status) + if last.status == status then [last] else []
  }

  lemma {:induction false} OfStatusIs(pool: seq<Signer>, status: Status)
    requires UniqueIds(pool)
    ensures UniqueIds(OfStatus(pool, status))
    ensures forall x :: x in OfStatus(pool, status) <==> x in pool && x.status == status
  {
    if pool != [] {
      var front, last := pool[..|pool| - 1], pool[|pool| - 1];
      OfStatusIs(front, status);
      assert pool == front + [last];
      var before := OfStatus(front, status);
      forall i | 0 <= i < |before| ensures before[i].id != last.id {
        assert before[i] in front;
      }
    }
  }

  /** Swaps random positions from the end down. */
  method Shuffle(s: seq<Signer>) returns (r: seq<Signer>)
    requires UniqueIds(s)
    ensures |r| == |s| && UniqueIds(r) && forall x :: x in r <==> x in s
  {
    r := s;
    var i := |s|;
    while i > 1
      invariant 0 <= i <= |s| == |r| && UniqueIds(r) && forall x :: x in r <==> x in s
    {
      i := i - 1;
      var j :| 0 <= j <= i;
      ghost var before := r;
      r := r[i := r[j]][j := r[i]];
      assert r[i] == before[j] && r[j] == before[i];
      forall x ensures x in r <==> x in before {
        SwapKeeps(before, r, i, j, x);
      }
    }
  }

  lemma SwapKeeps(a: seq<Signer>, b: seq<Signer>, i: nat, j: nat, x: Signer)
    requires |a| == |b| && i < |a| && j < |a| && b == a[i := a[j]][j := a[i]]
    ensures x in a <==> x in b
  {
    if x in a {
      var k :| 0 <= k < |a| && a[k] == x;
      assert b[if k == i then j else if k == j then i else k] == x;
    }
    if x in b {
      var k :| 0 <= k < |b| && b[k] == x;
      assert a[if k == i then j else if k == j then i else k] == x;
    }
  }

  class SignerPoolManager {
    const pool: SignerPool
    var table: map<Id, JoinData>

    constructor (pool: SignerPool)
      ensures this.pool == pool && table == map[]
    {
      this.pool := pool;
      table := map[];
    }

    ghost function Contents(): State
      reads this, pool
    {
      State(table, pool.signers)
    }

    method IsTimeout(id: Id, now: int) returns (late: bool)
      requires id in table
      ensures late == Late(now, table[id].start)
    {
      late := (now - table[id].start) % WORD > JOIN_TIMEOUT_SEC;
    }

    method HandleMessage(m: Msg) returns (reply: Reply)
      modifies this, pool
      ensures Contents() == Handle(old(Contents()), m).0 && reply == Handle(old(Contents()), m).1
    {
      match m
      case Join(id, now, nonce) =>
        if !(MAX_SIGNER_NUM > |pool.signers|) {
          return MaxSignerPool;
        }
        table := table[id := JoinData(nonce, "", None, now, true)];
        reply := Challenge(nonce);
      case Response1(id, now, cert, signs, key) =>
        if id !in table {
          return IllegalAccess;
        }
        var late := IsTimeout(id, now);
        if late {
          return Timeout;
        }
        if table[id].nonce !in signs {
          return InvalidSig;
        }
        table := table[id := table[id].(cert := cert)];
        if key.None? {
          return InvalidPk;
        }
        table := table[id := table[id].(key := key)];
        pool.PushSigner(id, table[id].cert, key.value, Temporary);
        table := table[id := table[id].(lock := false)];
        reply := Response2;
      case Success(id, now) =>
        if id !in table {
          return Crash;
        }
        var late := IsTimeout(id, now);
        if late {
          return Timeout;
        }
        var found := pool.UpdateStatus(id, Good);
        table := Erased(table, id);
        reply := Accept;
      case Leave(id) =>
        if id in table && !table[id].lock {
          table := Erased(table, id);
        }
        var found := pool.RemoveSigner(id);
        reply := Silent;
      case Other(_) =>
        reply := Silent;
    }
  }

  // ---- runs ----

  /** The state after the messages, from an empty pool and table. */
  function After(msgs: seq<Msg>): State {
    if msgs == [] then State(map[], []) else Handle(After(msgs[..|msgs| - 1]), msgs[|msgs| - 1]).0
  }

  function ReplyTo(msgs: seq<Msg>, i: nat): Reply
    requires i < |msgs|
  {
    Handle(After(msgs[..i]), msgs[i]).1
  }

  // What a message does to one signer.

  datatype Event = Responded | Succeeded | Left | Nothing

  function EventOf(m: Msg, reply: Reply, id: Id): Event {
    if m.id != id then Nothing
    else if m.Response1? && reply.Response2? then Responded
    else if m.Success? && reply.Accept? then Succeeded
    else if m.Leave? then Left
    else Nothing
  }

  /** The events of a signer in a run. */
  function Events(msgs: seq<Msg>, id: Id): (ev: seq<Event>)
    ensures |ev| == |msgs|
  {
    if msgs == [] then []
    else
      var n := |msgs| - 1;
      Events(msgs[..n], id) + [EventOf(msgs[n], ReplyTo(msgs, n), id)]
  }

  lemma {:induction false} EventAt(msgs: seq<Msg>, id: Id, i: nat)
    requires i < |msgs|
    ensures Events(msgs, id)[i] == EventOf(msgs[i], ReplyTo(msgs, i), id)
  {
    var n := |msgs| - 1;
    var front := msgs[..n];
    if i < n {
      EventAt(front, id, i);
      assert front[..i] == msgs[..i] && front[i] == msgs[i];
      assert ReplyTo(front, i) == ReplyTo(msgs, i);
    }
  }

  /** The last accepted RESPONSE_1, unless the signer has left since. */
  function Pending(ev: seq<Event>): (r: Option<nat>)
    ensures r.Some? ==> r.value < |ev|
  {
    if ev == [] then None
    else
      var n := |ev| - 1;
      if ev[n].Responded? then Some(n) else if ev[n].Left? then None else Pending(ev[..n])
  }

  /** r is an accepted RESPONSE_1 with no LEAVE and no newer accepted one since. */
  ghost predicate Standing(ev: seq<Event>, r: nat) {
    r < |ev| && ev[r].Responded? && forall k | r < k < |ev| :: !ev[k].Left? && !ev[k].Responded?
  }

  lemma {:induction false} PendingIsStanding(ev: seq<Event>, r: nat)
    ensures Pending(ev) == Some(r) <==> Standing(ev, r)
  {
    if ev != [] {
      var n := |ev| - 1;
      PendingIsStanding(ev[..n], r);
      assert forall k | 0 <= k < n :: ev[..n][k] == ev[k];
    }
  }

  /** A SUCCESS was accepted after message r. */
  ghost predicate SucceededSince(ev: seq<Event>, r: nat) {
    exists k :: r < k < |ev| && ev[k].Succeeded?
  }

  ghost function Expected(ev: seq<Event>): Option<Status> {
    var r := Pending(ev);
    if r.None? then None else Some(if SucceededSince(ev, r.value) then Good else Temporary)
  }

  lemma ExpectedStep(ev: seq<Event>, e: Event)
    ensures Expected(ev + [e]) ==
              (if e.Responded? then Some(Temporary)
               else if e.Succeeded? && Expected(ev).Some? then Some(Good)
               else if e.Left? then None
               else Expected(ev))
  {
    var all := ev + [e];
    assert all[..|ev|] == ev && all[|ev|] == e;
    var r := Pending(ev);
    if r.Some? && !e.Responded? && !e.Left? {
      if SucceededSince(ev, r.value) {
        var k :| r.value < k < |ev| && ev[k].Succeeded?;
        assert all[k].Succeeded?;
      }
      if SucceededSince(all, r.value) && !e.Succeeded? {
        var k :| r.value < k < |all| && all[k].Succeeded?;
        assert ev[k].Succeeded?;
      }
    }
  }

  /** The pool entry an accepted RESPONSE_1 makes. */
  function EntryFrom(m: Msg, status: Status): Signer {
    if m.Response1? && m.key.Some? then Signer(m.id, m.cert, m.key.value, status) else Signer(m.id, "", 0, status)
  }

  lemma HandleSets(s: State, m: Msg, id: Id, s': State, e: Event)
    requires UniqueIds(s.pool) && s' == Handle(s, m).0 && e == EventOf(m, Handle(s, m).1, id)
    ensures UniqueIds(s'.pool)
    ensures EntryOf(s'.pool, id) ==
              (if e.Responded? then Some(EntryFrom(m, Temporary))
               else if e.Succeeded? && EntryOf(s.pool, id).Some? then Some(EntryOf(s.pool, id).value.(status := Good))
               else if e.Left? then None
               else EntryOf(s.pool, id))
  {
    match m
    case Response1(who, _, cert, _, key) =>
      if key.Some? {
        PushSets(s.pool, Signer(who, cert, key.value, Temporary), id);
      }
    case Success(who, _) => UpdateSets(s.pool, who, Good, id);
    case Leave(who) => RemoveSets(s.pool, who, id);
    case _ =>
  }

  /** What the pool should hold for a signer: certificate and key of its standing RESPONSE_1, and a status. */
  ghost function ExpectedEntry(msgs: seq<Msg>, ev: seq<Event>): Option<Signer>
    requires |ev| == |msgs|
  {
    var r := Pending(ev);
    if r.None? then None else Some(EntryFrom(msgs[r.value], Expected(ev).value))
  }

  /** In every run the pool holds for every signer what its messages say, and ids in the pool are unique. */
  lemma {:induction false} PoolFollows(msgs: seq<Msg>, id: Id)
    ensures UniqueIds(After(msgs).pool) && EntryOf(After(msgs).pool, id) == ExpectedEntry(msgs, Events(msgs, id))
  {
    if msgs != [] {
      var n := |msgs| - 1;
      var front := msgs[..n];
      PoolFollows(front, id);
      var e := EventOf(msgs[n], ReplyTo(msgs, n), id);
      HandleSets(After(front), msgs[n], id, After(msgs), e);
      ExpectedStep(Events(front, id), e);
      PendingStep(Events(front, id), e);
    }
  }

  lemma PendingStep(ev: seq<Event>, e: Event)
    ensures Pending(ev + [e]) == if e.Responded? then Some(|ev|) else if e.Left? then None else Pending(ev)
  {
    assert (ev + [e])[..|ev|] == ev;
  }

  lemma StatusFollows(msgs: seq<Msg>, id: Id)
    ensures UniqueIds(After(msgs).pool) && StatusOf(After(msgs).pool, id) == Expected(Events(msgs, id))
  {
    PoolFollows(msgs, id);
  }

  /** A signer is good exactly if it has an accepted RESPONSE_1, then a later accepted SUCCESS, with no LEAVE
      and no newer accepted RESPONSE_1 since. */
  lemma GoodIff(msgs: seq<Msg>, id: Id)
    ensures StatusOf(After(msgs).pool, id) == Some(Good) <==> Completed(Events(msgs, id))
  {
    StatusFollows(msgs, id);
    ExpectedGood(Events(msgs, id));
  }

  ghost predicate Completed(ev: seq<Event>) { exists r: nat :: Standing(ev, r) && SucceededSince(ev, r) }

  lemma ExpectedGood(ev: seq<Event>)
    ensures Expected(ev) == Some(Good) <==> Completed(ev)
  {
    if Pending(ev).Some? {
      PendingIsStanding(ev, Pending(ev).value);
    }
    if r: nat :| Standing(ev, r) && SucceededSince(ev, r) {
      PendingIsStanding(ev, r);
    }
  }

  // What acceptance rests on.

  predicate AcceptedJoin(msgs: seq<Msg>, i: nat, id: Id)
    requires i < |msgs|
  {
    msgs[i].Join? && msgs[i].id == id && ReplyTo(msgs, i).Challenge?
  }

  /** The last JOIN of the signer that was answered with a challenge. */
  function LatestJoin(msgs: seq<Msg>, id: Id): (j: Option<nat>)
    ensures j.Some? ==> j.value < |msgs| && msgs[j.value].Join?
  {
    if msgs == [] then None
    else
      var n := |msgs| - 1;
      if AcceptedJoin(msgs, n, id) then Some(n) else LatestJoin(msgs[..n], id)
  }

  lemma {:induction false} LatestJoinIs(msgs: seq<Msg>, id: Id, j: nat)
    ensures LatestJoin(msgs, id) == Some(j) <==>
              j < |msgs| && AcceptedJoin(msgs, j, id) && forall k | j < k < |msgs| :: !AcceptedJoin(msgs, k, id)
  {
    if msgs != [] {
      var n := |msgs| - 1;
      LatestJoinIs(msgs[..n], id, j);
      forall k | 0 <= k < n ensures AcceptedJoin(msgs[..n], k, id) == AcceptedJoin(msgs, k, id) {
        assert msgs[..n][..k] == msgs[..k];
      }
    }
  }

  /** A pending join entry has the nonce and the time of the latest accepted JOIN. */
  lemma {:induction false} EntryIsLatestJoin(msgs: seq<Msg>, id: Id)
    requires id in After(msgs).table
    ensures var j := LatestJoin(msgs, id);
            && j.Some? && After(msgs).table[id].nonce == msgs[j.value].nonce
            && After(msgs).table[id].start == msgs[j.value].now
  {
    var n := |msgs| - 1;
    var front := msgs[..n];
    if !AcceptedJoin(msgs, n, id) {
      EntryIsLatestJoin(front, id);
    }
  }

  /** An accepted RESPONSE_1 carries a signature that verifies against the nonce of the latest accepted JOIN
      before it and comes within the time limit of that JOIN; so does, in time, an accepted SUCCESS. */
  lemma AcceptedMeans(msgs: seq<Msg>, id: Id, i: nat)
    requires i < |msgs| && (Events(msgs, id)[i].Responded? || Events(msgs, id)[i].Succeeded?)
    ensures var j := LatestJoin(msgs[..i], id);
            && j.Some? && msgs[i].id == id && (msgs[i].Response1? || msgs[i].Success?)
            && Elapsed(msgs[i].now, msgs[j.value].now) <= JOIN_TIMEOUT_SEC
            && (Events(msgs, id)[i].Responded? ==>
                  msgs[i].Response1? && msgs[j.value].nonce in msgs[i].signs && msgs[i].key.Some?)
  {
    EventAt(msgs, id, i);
    EntryIsLatestJoin(msgs[..i], id);
  }

  /** The signers chosen at any time of any run are different and good. */
  method ChosenAreGood(p: SignerPool, msgs: seq<Msg>, number: nat) returns (chosen: seq<Signer>)
    requires p.signers == After(msgs).pool && number <= |OfStatus(p.signers, Good)|
    ensures |chosen| == number && UniqueIds(chosen)
    ensures forall i | 0 <= i < number :: StatusOf(After(msgs).pool, chosen[i].id) == Some(Good)
  {
    StatusFollows(msgs, "");
    chosen := p.RandomSigners(number);
    forall i | 0 <= i < number ensures StatusOf(p.signers, chosen[i].id) == Some(Good) {
      var k :| 0 <= k < |p.signers| && p.signers[k] == chosen[i];
      FindUnique(p.signers, chosen[i].id, k);
    }
  }
}