/**
  The chained hash map of omp_hash_map.h as one caller at a time sees it: buckets of chains, growth with
  the number of keys, and the choice of bucket counts.  A chain is a sequence of nodes; the nodes it owns
  are reached through it alone.  The locking around these operations is modelled in SegmentLocks.
 */
module OmpHashMap {
  import opened Wrappers
  import opened ModArith

  const N_INITIAL_BUCKETS: nat := 11
  const N_DIVISIONS: nat := 3
  const DIVISION_FACTOR: nat := 15858
  const LAST_PRIME_NUMBER: nat := 104729
  const PRIME_NUMBERS: seq<nat> := [11, 17, 29, 47, 79, 127, 211, 337, 547, 887, 1433, 2311, 3739, 6053,
                                    9791, 15858, 25667, 41539, 67213, 104729]

  // ---- bucket counts ----

  /** How often the loop divides: while the quotient exceeds the last table entry, three times at most. */
  function Divisions(x: nat, left: nat): (d: nat)
    ensures d <= left
  {
    if left > 0 && x > LAST_PRIME_NUMBER then 1 + Divisions(x / DIVISION_FACTOR, left - 1) else 0
  }

  function Power(d: nat): (p: nat)
    ensures p > 0
  {
    if d == 0 then 1 else DIVISION_FACTOR * Power(d - 1)
  }

  /** The factor taken out of x, and the quotient left to look up. */
  function Factor(x: nat): nat { Power(Divisions(x, N_DIVISIONS)) }
  function Remaining(x: nat): nat { x / Power(Divisions(x, N_DIVISIONS)) }

  /** The first entry of an ascending table that is at least q. */
  function FirstFrom(table: seq<nat>, q: nat): (p: nat)
    requires table != [] && q <= table[|table| - 1]
  {
    if q <= table[0] then table[0] else FirstFrom(table[1..], q)
  }

  /** The bucket count for x, where there is one. */
  function Rounded(x: nat): nat
    requires Remaining(x) <= LAST_PRIME_NUMBER
  {
    Factor(x) * FirstFrom(PRIME_NUMBERS, Remaining(x))
  }

  predicate Ascends(table: seq<nat>) { forall i, j | 0 <= i < j < |table| :: table[i] < table[j] }

  /** p is the least table entry that is at least q. */
  ghost predicate LeastFrom(table: seq<nat>, q: nat, p: nat) {
    p in table && q <= p && forall r | r in table && q <= r :: p <= r
  }

  lemma {:induction false} DividesOn(x: nat, y: nat, d: nat, left: nat)
    requires y == x / Power(d) && left > 0 && y > LAST_PRIME_NUMBER
    ensures y / DIVISION_FACTOR == x / Power(d + 1)
    ensures Divisions(y, left) == 1 + Divisions(y / DIVISION_FACTOR, left - 1)
  {
    DivideTwice(x, Power(d), DIVISION_FACTOR);
  }

  /** The division loop of get_n_rehashing_buckets. */
  method DivideOut(x: nat) returns (remaining: nat, n: nat)
    ensures remaining == Remaining(x) && n == Factor(x)
  {
    remaining, n := x, 1;
    ghost var d := 0;
    assert x / Power(0) == x;
    for i := 0 to N_DIVISIONS
      invariant n == Power(d) && remaining == x / Power(d)
      invariant d + Divisions(remaining, N_DIVISIONS - i) == Divisions(x, N_DIVISIONS)
    {
      if remaining > LAST_PRIME_NUMBER {
        DividesOn(x, remaining, d, N_DIVISIONS - i);
        remaining := remaining / DIVISION_FACTOR;
        n := n * DIVISION_FACTOR;
        d := d + 1;
      }
    }
  }

  /** Its binary search. */
  method LookUp(table: seq<nat>, q: nat) returns (p: nat)
    requires table != [] && q <= table[|table| - 1]
    requires Ascends(table)
    ensures p == FirstFrom(table, q)
  {
    var left, right := 0, |table| - 1;
    while left < right
      invariant 0 <= left <= right < |table|
      invariant forall k | 0 <= k < left :: table[k] < q
      invariant q <= table[right]
    {
      var mid := (left + right) / 2;
      if table[mid] < q {
        left := mid + 1;
      } else {
        right := mid;
      }
    }
    p := table[left];
    FirstIsLeast(table, q);
    assert LeastFrom(table, q, p);
  }

  lemma {:induction false} FirstIsLeast(table: seq<nat>, q: nat)
    requires table != [] && q <= table[|table| - 1] && Ascends(table)
    ensures LeastFrom(table, q, FirstFrom(table, q))
  {
    if q > table[0] {
      FirstIsLeast(table[1..], q);
      assert forall r | r in table :: r == table[0] || r in table[1..];
    }
  }

  /** get_n_rehashing_buckets; None stands for the exception. */
  method RehashingBuckets(x: nat) returns (r: Option<nat>)
    ensures r.None? <==> Remaining(x) > LAST_PRIME_NUMBER
    ensures r.Some? ==> r.value == Rounded(x)
  {
    var remaining, n := DivideOut(x);
    if remaining > LAST_PRIME_NUMBER {
      return None;
    }
    Ascending();
    var p := LookUp(PRIME_NUMBERS, remaining);
    r := Some(n * p);
  }

  lemma Ascending()
    ensures Ascends(PRIME_NUMBERS)
  {
  }

  /** The documented promise r >= x, and exactly when it holds: unless the quotient is itself a table entry
      while the divisions lost a remainder. */
  lemma LargeEnoughIff(x: nat)
    requires Remaining(x) <= LAST_PRIME_NUMBER
    ensures Rounded(x) >= x <==> Remaining(x) !in PRIME_NUMBERS || x % Factor(x) == 0
  {
    Ascending();
    FirstIsLeast(PRIME_NUMBERS, Remaining(x));
    ProductEnough(x, Factor(x), PRIME_NUMBERS, FirstFrom(PRIME_NUMBERS, Remaining(x)));
  }

  lemma ProductEnough(x: nat, f: nat, table: seq<nat>, p: nat)
    requires f > 0 && LeastFrom(table, x / f, p)
    ensures f * p >= x <==> x / f !in table || x % f == 0
  {
    var q := x / f;
    assert x == f * q + x % f;
    if q < p {
      assert f * (q + 1) <= f * p;
    }
  }

  lemma SmallIsWhole(x: nat)
    requires x <= LAST_PRIME_NUMBER
    ensures Factor(x) == 1 && Remaining(x) == x
  {
    assert Divisions(x, N_DIVISIONS) == 0 && Power(0) == 1;
  }

  /** Up to the last table entry the count is the least table entry that is large enough. */
  lemma SmallIsExact(x: nat)
    requires x <= LAST_PRIME_NUMBER
    ensures Remaining(x) == x && LeastFrom(PRIME_NUMBERS, x, Rounded(x))
  {
    SmallIsWhole(x);
    Ascending();
    FirstIsLeast(PRIME_NUMBERS, x);
  }

  /** The promise fails at 180000, which gets 174438 buckets. */
  lemma PromiseFails()
    ensures Remaining(180000) == 11 && Rounded(180000) == 174438 < 180000
  {
    assert 180000 / DIVISION_FACTOR == 11;
    assert Divisions(180000, N_DIVISIONS) == 1 && Power(1) == DIVISION_FACTOR;
  }

  // ---- chains ----

  datatype Node<K, V> = Node(key: K, value: V)

  /** Where hash_node_apply_recursive calls its handler: at the key's node, or past the end of the chain. */
  function Find<K(==), V>(chain: seq<Node<K, V>>, key: K): (i: nat)
    ensures i <= |chain|
    ensures forall j | 0 <= j < i :: chain[j].key != key
    ensures i < |chain| ==> chain[i].key == key
  {
    if chain == [] || chain[0].key == key then 0 else 1 + Find(chain[1..], key)
  }

  /** The bucket of each key, among n. */
  function Home<K>(hash: K -> nat, n: nat): K -> nat
    requires n > 0
  {
    k => hash(k) % n
  }

  /** Each key of m sits once in the table, in the bucket that is its home, with its value. */
  ghost predicate Represents<K(!new), V>(buckets: seq<seq<Node<K, V>>>, home: K -> nat, m: map<K, V>) {
    && (forall b, i | 0 <= b < |buckets| && 0 <= i < |buckets[b]| :: NodeOk(home, m, b, buckets[b][i]))
    && (forall b | 0 <= b < |buckets| :: DistinctKeys(buckets[b]))
    && (forall k | k in m :: KeyHeld(buckets, home(k), k))
  }

  ghost predicate NodeOk<K, V>(home: K -> nat, m: map<K, V>, b: nat, node: Node<K, V>) {
    node.key in m && m[node.key] == node.value && home(node.key) == b
  }

  function Without<K, V>(m: map<K, V>, key: K): map<K, V> { map k | k in m && k != key :: m[k] }

  /** m is split in two. */
  ghost predicate Splits<K(!new), V>(m: map<K, V>, left: map<K, V>, right: map<K, V>) {
    && (forall k | k in m :: (k in left && left[k] == m[k] && k !in right) || (k in right && right[k] == m[k] && k !in left))
    && left.Keys <= m.Keys && right.Keys <= m.Keys
  }

  ghost predicate DistinctKeys<K, V>(chain: seq<Node<K, V>>) {
    forall i, j | 0 <= i < j < |chain| :: chain[i].key != chain[j].key
  }

  ghost predicate KeyHeld<K, V>(buckets: seq<seq<Node<K, V>>>, b: nat, k: K) {
    b < |buckets| && exists i :: 0 <= i < |buckets[b]| && buckets[b][i].key == k
  }

  function Max(a: nat, b: nat): nat { if a < b then b else a }

  /** The test that makes set grow the table, and the number of buckets it asks for then. */
  predicate Crowded(nKeys: nat, nBuckets: nat, factor: real)
    ensures factor == 1.0 ==> (Crowded(nKeys, nBuckets, factor) <==> nKeys >= nBuckets)
  {
    nKeys as real >= nBuckets as real * factor
  }

  function Needed(nKeys: nat, factor: real): (n: nat)
    requires factor > 0.0
    ensures factor == 1.0 ==> n == nKeys
  {
    assert nKeys as real / factor >= 0.0;
    (nKeys as real / factor).Floor
  }

  /** Whether the growth check raises the exception, and the bucket count it leaves. */
  predicate Throws(nBuckets: nat, nKeys: nat, factor: real)
    requires factor > 0.0
  {
    Crowded(nKeys, nBuckets, factor) && Remaining(Needed(nKeys, factor)) > LAST_PRIME_NUMBER
  }

  function Grown(nBuckets: nat, nKeys: nat, factor: real): nat
    requires factor > 0.0
  {
    if Crowded(nKeys, nBuckets, factor) && !Throws(nBuckets, nKeys, factor)
    then Max(nBuckets, Rounded(Needed(nKeys, factor)))
    else nBuckets
  }

  function Empty<K, V>(n: nat): seq<seq<Node<K, V>>> { seq(n, _ => []) }

  /** The key is in the map exactly when its bucket's chain has a node for it. */
  lemma FindIsLookup<K(!new), V>(buckets: seq<seq<Node<K, V>>>, home: K -> nat, m: map<K, V>, key: K)
    requires Represents(buckets, home, m) && home(key) < |buckets|
    ensures var chain := buckets[home(key)];
            var i := Find(chain, key);
            (i < |chain| <==> key in m) && (i < |chain| ==> chain[i].value == m[key])
  {
    var chain := buckets[home(key)];
    var i := Find(chain, key);
    if i < |chain| {
      assert NodeOk(home, m, home(key), chain[i]);
    } else {
      assert key in m ==> KeyHeld(buckets, home(key), key);
    }
  }

  lemma EmptyRepresents<K(!new), V>(n: nat, home: K -> nat)
    ensures Represents(Empty<K, V>(n), home, map[])
  {
  }

  /** Appending a node for a new key. */
  lemma AppendRepresents<K(!new), V>(buckets: seq<seq<Node<K, V>>>, home: K -> nat, m: map<K, V>, key: K, value: V)
    requires Represents(buckets, home, m) && home(key) < |buckets| && key !in m
    ensures var b := home(key);
            Represents(buckets[b := buckets[b] + [Node(key, value)]], home, m[key := value])
  {
    var b := home(key);
    var after := buckets[b := buckets[b] + [Node(key, value)]];
    forall c, i | 0 <= c < |after| && 0 <= i < |after[c]| ensures NodeOk(home, m[key := value], c, after[c][i]) {
      assert c != b || i < |buckets[b]| ==> NodeOk(home, m, c, buckets[c][i]);
    }
    forall c | 0 <= c < |after| ensures DistinctKeys(after[c]) {
      assert DistinctKeys(buckets[c]);
      forall i | c == b && 0 <= i < |buckets[b]| ensures buckets[b][i].key != key {
        assert NodeOk(home, m, b, buckets[b][i]);
      }
    }
    forall k | k in m[key := value] ensures KeyHeld(after, home(k), k) {
      if k == key {
        assert after[b][|buckets[b]|].key == k;
      } else {
        assert KeyHeld(buckets, home(k), k);
        var i :| 0 <= i < |buckets[home(k)]| && buckets[home(k)][i].key == k;
        assert after[home(k)][i].key == k;
      }
    }
  }

  /** Overwriting the value of a key. */
  lemma UpdateRepresents<K(!new), V>(buckets: seq<seq<Node<K, V>>>, home: K -> nat, m: map<K, V>, key: K, value: V)
    requires Represents(buckets, home, m) && home(key) < |buckets|
    requires Find(buckets[home(key)], key) < |buckets[home(key)]|
    ensures var b := home(key);
            Represents(buckets[b := buckets[b][Find(buckets[b], key) := Node(key, value)]], home, m[key := value])
  {
    var b := home(key);
    var p := Find(buckets[b], key);
    var after := buckets[b := buckets[b][p := Node(key, value)]];
    forall c, i | 0 <= c < |after| && 0 <= i < |after[c]| ensures NodeOk(home, m[key := value], c, after[c][i]) {
      assert NodeOk(home, m, c, buckets[c][i]) && DistinctKeys(buckets[c]);
    }
    forall c | 0 <= c < |after| ensures DistinctKeys(after[c]) {
      assert DistinctKeys(buckets[c]);
    }
    forall k | k in m[key := value] ensures KeyHeld(after, home(k), k) {
      if k == key {
        assert after[b][p].key == k;
      } else {
        assert KeyHeld(buckets, home(k), k);
        var i :| 0 <= i < |buckets[home(k)]| && buckets[home(k)][i].key == k;
        assert after[home(k)][i].key == k;
      }
    }
  }

  /** Unlinking the node at position p of bucket b. */
  lemma RemoveRepresents<K(!new), V>(buckets: seq<seq<Node<K, V>>>, home: K -> nat, m: map<K, V>, b: nat, p: nat)
    requires Represents(buckets, home, m) && b < |buckets| && p < |buckets[b]|
    ensures Represents(buckets[b := buckets[b][..p] + buckets[b][p + 1..]], home, Without(m, buckets[b][p].key))
    ensures NodeOk(home, m, b, buckets[b][p])
  {
    var key := buckets[b][p].key;
    var after := buckets[b := buckets[b][..p] + buckets[b][p + 1..]];
    assert NodeOk(home, m, b, buckets[b][p]) && DistinctKeys(buckets[b]);
    forall c, i | 0 <= c < |after| && 0 <= i < |after[c]| ensures NodeOk(home, Without(m, key), c, after[c][i]) {
      var j := if c == b && i >= p then i + 1 else i;
      assert NodeOk(home, m, c, buckets[c][j]) && after[c][i] == buckets[c][j];
    }
    forall c | 0 <= c < |after| ensures DistinctKeys(after[c]) {
      assert DistinctKeys(buckets[c]);
    }
    forall k | k in Without(m, key) ensures KeyHeld(after, home(k), k) {
      var c := home(k);
      assert KeyHeld(buckets, c, k);
      var i :| 0 <= i < |buckets[c]| && buckets[c][i].key == k;
      assert after[c][if c == b && i > p then i - 1 else i].key == k;
    }
  }

  lemma NothingLeft<K(!new), V>(rest: seq<seq<Node<K, V>>>, home: K -> nat, left: map<K, V>)
    requires Represents(rest, home, left) && forall b | 0 <= b < |rest| :: |rest[b]| == 0
    ensures left == map[]
  {
    assert forall k | k in left :: KeyHeld(rest, home(k), k);
  }

  // ---- the map ----

  /** The body of rehash: the threads of the parallel loop take the buckets in any order, each from the end
      of its chain, so at any moment some bucket gives up its last node. */
  method MoveAll<K(==, !new), V>(buckets: seq<seq<Node<K, V>>>, ghost home: K -> nat, home': K -> nat, n: nat,
                                 ghost contents: map<K, V>) returns (grown: seq<seq<Node<K, V>>>)
    requires Represents(buckets, home, contents) && forall k :: home'(k) < n
    ensures |grown| == n && Represents(grown, home', contents)
  {
    grown := Empty(n);
    var rest := buckets;
    ghost var left, moved: map<K, V> := contents, map[];
    EmptyRepresents<K, V>(n, home');
    while exists b :: 0 <= b < |rest| && |rest[b]| > 0
      invariant |grown| == n && Represents(rest, home, left) && Represents(grown, home', moved)
      invariant Splits(contents, left, moved)
      decreases |left|
    {
      var b :| 0 <= b < |rest| && |rest[b]| > 0;
      var node: Node<K, V> := rest[b][|rest[b]| - 1];
      var c := home'(node.key);
      var grown' := grown[c := grown[c][..Find(grown[c], node.key)] + [node]];
      var rest' := rest[b := rest[b][..|rest[b]| - 1]];
      assert NodeOk(home, left, b, node);
      MoveLast(rest, rest', grown, grown', home, home', left, moved, b, node);
      MoveKey(contents, left, moved, node.key);
      grown, rest := grown', rest';
      moved, left := moved[node.key := node.value], Without(left, node.key);
    }
    NothingLeft(rest, home, left);
    assert moved == contents;
  }

  class OmpHashMap<K(==, !new), V> {
    const hash: K -> nat
    var buckets: seq<seq<Node<K, V>>>
    var nBuckets: nat
    var nKeys: nat
    var maxLoadFactor: real
    ghost var contents: map<K, V>

    ghost predicate Valid()
      reads this
    {
      && |buckets| == nBuckets > 0 && Represents(buckets, Home(hash, nBuckets), contents) && nKeys == |contents|
      && maxLoadFactor > 0.0
    }

    constructor (hash: K -> nat)
      ensures Valid() && contents == map[] && nBuckets == N_INITIAL_BUCKETS && maxLoadFactor == 1.0
      ensures this.hash == hash
    {
      this.hash := hash;
      nKeys := 0;
      nBuckets := N_INITIAL_BUCKETS;
      buckets := Empty(N_INITIAL_BUCKETS);
      maxLoadFactor := 1.0;
      contents := map[];
      new;
      EmptyRepresents<K, V>(N_INITIAL_BUCKETS, Home(hash, N_INITIAL_BUCKETS));
    }

    /** The bucket of a key. */
    function BucketId(key: K): (b: nat)
      requires nBuckets > 0
      reads this
      ensures b < nBuckets
    {
      hash(key) % nBuckets
    }

    method Has(key: K) returns (found: bool)
      requires Valid()
      ensures found <==> key in contents
    {
      FindIsLookup(buckets, Home(hash, nBuckets), contents, key);
      var chain := buckets[BucketId(key)];
      found := Find(chain, key) < |chain|;
    }

    method GetCopyOrDefault(key: K, default: V) returns (value: V)
      requires Valid()
      ensures value == if key in contents then contents[key] else default
    {
      FindIsLookup(buckets, Home(hash, nBuckets), contents, key);
      var chain := buckets[BucketId(key)];
      var i := Find(chain, key);
      value := if i < |chain| then chain[i].value else default;
    }

    /** The handler of set. */
    method Put(key: K, value: V)
      requires Valid()
      modifies this`buckets, this`nKeys, this`contents
      ensures Valid() && contents == old(contents)[key := value]
      ensures nKeys <= old(nKeys) + 1
    {
      var b := BucketId(key);
      var chain := buckets[b];
      var i := Find(chain, key);
      FindIsLookup(buckets, Home(hash, nBuckets), contents, key);
      if i == |chain| {
        AppendRepresents(buckets, Home(hash, nBuckets), contents, key, value);
        buckets := buckets[b := chain + [Node(key, value)]];
        nKeys := nKeys + 1;
      } else {
        UpdateRepresents(buckets, Home(hash, nBuckets), contents, key, value);
        buckets := buckets[b := chain[i := Node(key, value)]];
      }
      SizeAfterPut(contents, key, value);
      contents := contents[key := value];
    }

    /** set: the handler, and then the growth check; `thrown` when growing raises the exception. */
    method Set(key: K, value: V) returns (thrown: bool)
      requires Valid()
      modifies this
      ensures Valid() && contents == old(contents)[key := value] && maxLoadFactor == old(maxLoadFactor)
      ensures nBuckets == Grown(old(nBuckets), nKeys, maxLoadFactor)
      ensures thrown <==> Throws(old(nBuckets), nKeys, maxLoadFactor)
      ensures maxLoadFactor == 1.0 && old(nKeys) <= old(nBuckets) && nKeys <= LAST_PRIME_NUMBER ==>
                !thrown && nKeys <= nBuckets
    {
      Put(key, value);
      thrown := false;
      if Crowded(nKeys, nBuckets, maxLoadFactor) {
        thrown := Reserve(Needed(nKeys, maxLoadFactor));
      }
    }

    method Unset(key: K)
      requires Valid()
      modifies this
      ensures Valid() && contents == Without(old(contents), key) && nBuckets == old(nBuckets)
      ensures maxLoadFactor == old(maxLoadFactor) && nKeys <= old(nKeys)
    {
      var b := BucketId(key);
      var chain := buckets[b];
      var i := Find(chain, key);
      FindIsLookup(buckets, Home(hash, nBuckets), contents, key);
      if i < |chain| {
        RemoveRepresents(buckets, Home(hash, nBuckets), contents, b, i);
        buckets := buckets[b := chain[..i] + chain[i + 1..]];
        nKeys := nKeys - 1;
      }
      SizeAfterRemoval(contents, key);
      contents := Without(contents, key);
    }

    /** reserve: `thrown` stands for the exception of get_n_rehashing_buckets. */
    method Reserve(n: nat) returns (thrown: bool)
      requires Valid()
      modifies this`buckets, this`nBuckets
      ensures Valid()
      ensures thrown <==> Remaining(n) > LAST_PRIME_NUMBER
      ensures thrown ==> buckets == old(buckets) && nBuckets == old(nBuckets)
      ensures !thrown ==> nBuckets == Max(old(nBuckets), Rounded(n))
      ensures nBuckets >= old(nBuckets) && (n <= LAST_PRIME_NUMBER ==> !thrown && nBuckets >= n)
    {
      if n <= LAST_PRIME_NUMBER {
        SmallIsExact(n);
      }
      var r := RehashingBuckets(n);
      thrown := r.None?;
      if r.Some? {
        Rehash(r.value);
      }
    }

    /** rehash */
    method Rehash(n: nat)
      requires Valid()
      modifies this`buckets, this`nBuckets
      ensures Valid() && nBuckets == Max(old(nBuckets), n)
    {
      if nBuckets >= n {
        return;
      }
      buckets := MoveAll(buckets, Home(hash, nBuckets), Home(hash, n), n, contents);
      nBuckets := n;
    }

    /** clear resizes the vector to 11 buckets and leaves n_buckets alone: the map is in order afterwards
        exactly when it had not grown. */
    method Clear()
      requires Valid()
      modifies this`buckets, this`nKeys, this`contents
      ensures contents == map[] && nKeys == 0 && |buckets| == N_INITIAL_BUCKETS
      ensures Valid() <==> nBuckets == N_INITIAL_BUCKETS
    {
      buckets := Empty(N_INITIAL_BUCKETS);
      nKeys := 0;
      contents := map[];
      EmptyRepresents<K, V>(N_INITIAL_BUCKETS, Home(hash, N_INITIAL_BUCKETS));
    }
  }

  lemma SizeAfterPut<K, V>(m: map<K, V>, key: K, value: V)
    ensures |m[key := value]| == if key in m then |m| else |m| + 1
  {
    assert m[key := value].Keys == m.Keys + {key};
    assert |m[key := value].Keys| == |m[key := value]| && |m.Keys| == |m|;
  }

  lemma SizeAfterRemoval<K, V>(m: map<K, V>, key: K)
    ensures |Without(m, key)| == if key in m then |m| - 1 else |m|
    ensures key !in m ==> Without(m, key) == m
  {
    assert Without(m, key).Keys == m.Keys - {key};
    assert |Without(m, key).Keys| == |Without(m, key)| && |m.Keys| == |m|;
  }

  /** Moving the last node of bucket b from one table to the other. */
  lemma MoveLast<K(!new), V>(rest: seq<seq<Node<K, V>>>, rest': seq<seq<Node<K, V>>>, grown: seq<seq<Node<K, V>>>,
                             grown': seq<seq<Node<K, V>>>, home: K -> nat, home': K -> nat,
                             left: map<K, V>, moved: map<K, V>, b: nat, node: Node<K, V>)
    requires Represents(rest, home, left) && Represents(grown, home', moved) && node.key !in moved
    requires b < |rest| && |rest[b]| > 0 && node == rest[b][|rest[b]| - 1] && home'(node.key) < |grown|
    requires rest' == rest[b := rest[b][..|rest[b]| - 1]]
    requires var c := home'(node.key); grown' == grown[c := grown[c][..Find(grown[c], node.key)] + [node]]
    ensures node.key in left && left[node.key] == node.value
    ensures Represents(rest', home, Without(left, node.key))
    ensures Represents(grown', home', moved[node.key := node.value])
  {
    var p := |rest[b]| - 1;
    var c := home'(node.key);
    RemoveRepresents(rest, home, left, b, p);
    assert rest[b][..p] + rest[b][p + 1..] == rest[b][..p];
    FindIsLookup(grown, home', moved, node.key);
    assert grown[c][..Find(grown[c], node.key)] == grown[c];
    AppendRepresents(grown, home', moved, node.key, node.value);
  }

  lemma MoveKey<K(!new), V>(m: map<K, V>, left: map<K, V>, moved: map<K, V>, key: K)
    requires Splits(m, left, moved) && key in left
    ensures |Without(left, key)| < |left| && Splits(m, Without(left, key), moved[key := left[key]])
  {
    SizeAfterRemoval(left, key);
  }

  lemma FirstCounts()
    ensures Remaining(11) == 11 && Remaining(12) == 12 && Rounded(11) == 11 && Rounded(12) == 17
  {
    SmallIsWhole(11);
    SmallIsWhole(12);
    assert PRIME_NUMBERS[0] == 11 && PRIME_NUMBERS[1..][0] == 17;
  }

  lemma EarlyGrowth(n: nat)
    requires n <= 12
    ensures Grown(11, n, 1.0) == if n == 12 then 17 else 11
  {
    FirstCounts();
  }

  ghost predicate HoldsFirst(m: OmpHashMap<nat, nat>, n: nat)
    reads m
  {
    && m.Valid() && m.maxLoadFactor == 1.0 && m.nKeys == n && m.nBuckets == (if n == 12 then 17 else 11)
    && forall k | k in m.contents :: k < n
  }

  method SetNext(m: OmpHashMap<nat, nat>, n: nat)
    requires HoldsFirst(m, n) && n < 12
    modifies m
    ensures HoldsFirst(m, n + 1)
  {
    EarlyGrowth(n + 1);
    SizeAfterPut(m.contents, n, n);
    var thrown := m.Set(n, n);
  }

  /** A map that has grown is within reach: twelve different keys give 17 buckets. */
  method TwelveKeys() returns (m: OmpHashMap<nat, nat>)
    ensures fresh(m) && m.Valid() && m.nKeys == 12 && m.nBuckets == 17
  {
    m := new OmpHashMap((k: nat) => k);
    for n := 0 to 12
      invariant fresh(m) && HoldsFirst(m, n)
    {
      SetNext(m, n);
    }
  }

  /** So clear does leave a reachable map out of order. */
  method ClearBreaksGrownMap() returns (m: OmpHashMap<nat, nat>)
    ensures !m.Valid() && m.contents == map[] && |m.buckets| == 11 && m.nBuckets == 17
  {
    m := TwelveKeys();
    m.Clear();
  }
}
