/**
  The flat Merkle tree (generate, makeParent), the proof checker (isValidSiblings) and the extraction of a
  proof from the regenerated tree (the loop of Storage::getProof), over any hash function H and any number
  of leaves 2^h with h >= 1; the repository fixes h = 12.  Base64 text stands for the bytes it encodes.
 */
module MerkleTree {
  import opened ByteStrings
  import opened ModArith

  const DIGEST: nat := 32
  const DUMMY: Bytes := seq(DIGEST, _ => 0)

  type Hash = Bytes -> Bytes

  /** One element of a proof: whether the sibling is on the right, and its value. */
  datatype Sibling = Sibling(right: bool, value: Bytes)

  // ---- reference definitions ----

  /** The Merkle root of 2^l leaves. */
  function Root(H: Hash, leaves: seq<Bytes>, l: nat): Bytes
    requires |leaves| == Pow2(l)
  {
    if l == 0 then leaves[0]
    else
      var half := Pow2(l - 1);
      H(Root(H, leaves[..half], l - 1) + Root(H, leaves[half..], l - 1))
  }

  /** The leaves of the tree: the first 2^h digests, filled up with zeros. */
  function Padded(digests: seq<Bytes>, n: nat): (r: seq<Bytes>)
    ensures |r| == n
  {
    if |digests| >= n then digests[..n] else digests + seq(n - |digests|, _ => DUMMY)
  }

  /** What the flat array holds at position p: a leaf, or the hash of the two nodes below. */
  function Value(H: Hash, leaves: seq<Bytes>, p: nat): Bytes
    requires p < 2 * |leaves| - 1
    decreases p
  {
    var n := |leaves|;
    if p < n then leaves[p]
    else H(Value(H, leaves, 2 * (p - n)) + Value(H, leaves, 2 * (p - n) + 1))
  }

  /** Where level l of the flat array starts, after the 2^h, 2^(h-1), ... nodes of the levels below. */
  function Offset(h: nat, l: nat): nat
    requires l <= h
  {
    Pow2Monotone(h - l, h);
    2 * Pow2(h) - 2 * Pow2(h - l)
  }

  lemma Sizes(h: nat, l: nat)
    requires l < h
    ensures Pow2(h - l) == 2 * Pow2(h - l - 1) && Pow2(h - l) <= Pow2(h)
    ensures l > 0 ==> 2 * Pow2(h - l) <= Pow2(h)
    ensures Offset(h, l + 1) == Offset(h, l) + Pow2(h - l) && Offset(h, 0) == 0
  {
    Pow2Monotone(h - l, h);
    if l > 0 {
      Pow2Monotone(h - l, h - 1);
    }
  }

  /** Node i of level l of the tree. */
  function Node(H: Hash, leaves: seq<Bytes>, l: nat, i: nat): Bytes {
    if l == 0 then if i < |leaves| then leaves[i] else []
    else H(Node(H, leaves, l - 1, 2 * i) + Node(H, leaves, l - 1, 2 * i + 1))
  }

  lemma {:induction false} LeftNodes(H: Hash, a: seq<Bytes>, b: seq<Bytes>, h: nat, l: nat, i: nat)
    requires |a| == Pow2(h) && l <= h && i < Pow2(h - l)
    ensures Node(H, a + b, l, i) == Node(H, a, l, i)
  {
    if l > 0 {
      assert Pow2(h - (l - 1)) == 2 * Pow2(h - l);
      LeftNodes(H, a, b, h, l - 1, 2 * i);
      LeftNodes(H, a, b, h, l - 1, 2 * i + 1);
    }
  }

  lemma {:induction false} RightNodes(H: Hash, a: seq<Bytes>, b: seq<Bytes>, h: nat, l: nat, i: nat)
    requires |a| == Pow2(h) && l <= h
    ensures Node(H, a + b, l, Pow2(h - l) + i) == Node(H, b, l, i)
  {
    if l > 0 {
      assert Pow2(h - (l - 1)) == 2 * Pow2(h - l);
      RightNodes(H, a, b, h, l - 1, 2 * i);
      RightNodes(H, a, b, h, l - 1, 2 * i + 1);
      assert 2 * (Pow2(h - l) + i) == Pow2(h - (l - 1)) + 2 * i;
    }
  }

  /** The top node is the root of the recursive definition. */
  lemma {:induction false} TopIsRoot(H: Hash, leaves: seq<Bytes>, h: nat)
    requires |leaves| == Pow2(h)
    ensures Node(H, leaves, h, 0) == Root(H, leaves, h)
  {
    if h > 0 {
      var a, b := leaves[..Pow2(h - 1)], leaves[Pow2(h - 1)..];
      assert leaves == a + b && Pow2(0) == 1;
      TopIsRoot(H, a, h - 1);
      TopIsRoot(H, b, h - 1);
      LeftNodes(H, a, b, h - 1, h - 1, 0);
      RightNodes(H, a, b, h - 1, h - 1, 0);
      assert Node(H, leaves, h, 0) == H(Node(H, leaves, h - 1, 0) + Node(H, leaves, h - 1, 1));
    }
  }

  /** Node i of level l + 1 sits where the array puts the parent of nodes 2i and 2i + 1 of level l. */
  lemma ChildPositions(h: nat, l: nat, i: nat)
    requires l < h && i < Pow2(h - l - 1)
    ensures 2 * i + 1 < Pow2(h - l) && Pow2(h) <= Offset(h, l + 1) + i < 2 * Pow2(h) - 1
    ensures 2 * (Offset(h, l + 1) + i - Pow2(h)) == Offset(h, l) + 2 * i
    ensures Offset(h, l) % 2 == 0
  {
    Sizes(h, l);
  }

  /** The flat array is the tree, level by level. */
  lemma {:induction false} FlatIsTree(H: Hash, leaves: seq<Bytes>, h: nat, l: nat, i: nat, p: nat)
    requires |leaves| == Pow2(h) && l <= h && i < Pow2(h - l) && p == Offset(h, l) + i
    ensures p < 2 * |leaves| - 1 && Value(H, leaves, p) == Node(H, leaves, l, i)
    decreases l
  {
    if l > 0 {
      ChildPositions(h, l - 1, i);
      var child := Offset(h, l - 1) + 2 * i;
      FlatIsTree(H, leaves, h, l - 1, 2 * i, child);
      FlatIsTree(H, leaves, h, l - 1, 2 * i + 1, child + 1);
      ParentValue(H, leaves, p, child, l - 1, i);
    }
  }

  lemma ParentValue(H: Hash, leaves: seq<Bytes>, p: nat, child: nat, l: nat, i: nat)
    requires |leaves| <= p < 2 * |leaves| - 1 && child == 2 * (p - |leaves|)
    requires Value(H, leaves, child) == Node(H, leaves, l, 2 * i)
    requires Value(H, leaves, child + 1) == Node(H, leaves, l, 2 * i + 1)
    ensures Value(H, leaves, p) == Node(H, leaves, l + 1, i)
  {
  }

  /** The last element of the array is the Merkle root of the padded digests. */
  lemma LastIsRoot(H: Hash, leaves: seq<Bytes>, h: nat)
    requires |leaves| == Pow2(h)
    ensures Value(H, leaves, 2 * Pow2(h) - 2) == Root(H, leaves, h)
  {
    assert Pow2(0) == 1;
    TopIsRoot(H, leaves, h);
    FlatIsTree(H, leaves, h, h, 0, 2 * Pow2(h) - 2);
  }

  // ---- the tree ----

  /** Every entry of the table of precomputed hashes is right. */
  ghost predicate Right(H: Hash, lookup: map<Bytes, Bytes>) { forall k | k in lookup :: lookup[k] == H(k) }

  /** The array holds the tree over the leaves. */
  ghost predicate Filled(tree: seq<Bytes>, H: Hash, leaves: seq<Bytes>) {
    |tree| == 2 * |leaves| - 1 && forall p | 0 <= p < |tree| :: tree[p] == Value(H, leaves, p)
  }

  lemma FilledRoot(tree: seq<Bytes>, H: Hash, leaves: seq<Bytes>, h: nat)
    requires Filled(tree, H, leaves) && |leaves| == Pow2(h)
    ensures tree[2 * |leaves| - 2] == Root(H, leaves, h)
  {
    LastIsRoot(H, leaves, h);
  }

  class MerkleTree {
    const h: nat
    const n: nat
    const H: Hash
    const lookup: map<Bytes, Bytes>
    const tree: array<Bytes>

    ghost predicate Valid() {
      2 <= n == Pow2(h) && tree.Length == 2 * n - 1 && Right(H, lookup)
    }

    constructor (H: Hash, lookup: map<Bytes, Bytes>, h: nat)
      requires h >= 1 && Right(H, lookup)
      ensures Valid() && fresh(tree) && this.H == H && this.h == h
    {
      this.h := h;
      this.n := Pow2(h);
      this.H := H;
      this.lookup := lookup;
      this.tree := new Bytes[2 * Pow2(h) - 1](_ => []);
    }

    method MakeParent(left: Bytes, right: Bytes) returns (r: Bytes)
      requires Valid()
      ensures r == H(left + right)
    {
      var both := left + right;
      if both in lookup {
        r := lookup[both];
      } else {
        r := H(both);
      }
    }

    /** generate: cached hashes or not, the array ends up holding the tree over the padded digests, with the
        Merkle root last. */
    method Generate(digests: seq<Bytes>)
      requires Valid()
      modifies tree
      ensures Filled(tree[..], H, Padded(digests, n)) && tree[2 * n - 2] == Root(H, Padded(digests, n), h)
    {
      FillLeaves(digests);
      HashLevels(Padded(digests, n));
      FilledRoot(tree[..], H, Padded(digests, n), h);
    }

    /** The two leaf loops of generate. */
    method FillLeaves(digests: seq<Bytes>)
      requires Valid()
      modifies tree
      ensures tree[..n] == Padded(digests, n)
    {
      ghost var leaves := Padded(digests, n);
      var m := if n < |digests| then n else |digests|;
      for i := 0 to m
        invariant forall p | 0 <= p < i :: tree[p] == leaves[p]
      {
        tree[i] := digests[i];
      }
      for i := m to n
        invariant forall p | 0 <= p < i :: tree[p] == leaves[p]
      {
        tree[i] := DUMMY;
      }
    }

    /** The parent loop of generate. */
    method HashLevels(ghost leaves: seq<Bytes>)
      requires Valid() && tree[..n] == leaves
      modifies tree
      ensures Filled(tree[..], H, leaves)
    {
      var parent: int, i: int := n, 0;
      assert forall p | 0 <= p < n :: tree[p] == tree[..n][p];
      while i < n * 2 - 3
        invariant 0 <= i <= 2 * n - 2 && i == 2 * (parent - n)
        invariant forall p | 0 <= p < parent :: tree[p] == Value(H, leaves, p)
      {
        tree[parent] := MakeParent(tree[i], tree[i + 1]);
        parent := parent + 1;
        i := i + 2;
      }
    }
  }

  // ---- proofs ----

  function Combine(H: Hash, v: Bytes, s: Sibling): Bytes { H(Joined(v, s)) }
  function Joined(v: Bytes, s: Sibling): Bytes { if s.right then v + s.value else s.value + v }

  /** The value reached from v along the siblings. */
  function Fold(H: Hash, v: Bytes, siblings: seq<Sibling>): Bytes {
    if siblings == [] then v
    else Combine(H, Fold(H, v, siblings[..|siblings| - 1]), siblings[|siblings| - 1])
  }

  /** What isValidSiblings accepts. */
  predicate Accepts(H: Hash, siblings: seq<Sibling>, mine: Bytes, root: Bytes) {
    && siblings != [] && mine != [] && root != []
    && siblings[0].value == mine && Fold(H, mine, siblings[1..]) == root
  }

  method IsValidSiblings(H: Hash, siblings: seq<Sibling>, mine: Bytes, root: Bytes) returns (ok: bool)
    ensures ok == Accepts(H, siblings, mine, root)
  {
    if siblings == [] || mine == [] || root == [] {
      return false;
    }
    if siblings[0].value != mine {
      return false;
    }
    var acc: Bytes := [];
    for i := 0 to |siblings|
      invariant i > 0 ==> acc == Fold(H, mine, siblings[1..i])
    {
      if i == 0 {
        acc := siblings[i].value;
        assert siblings[1..1] == [];
      } else {
        acc := if siblings[i].right then acc + siblings[i].value else siblings[i].value + acc;
        acc := H(acc);
        assert siblings[1..i + 1][..i - 1] == siblings[1..i];
      }
    }
    assert siblings[1..|siblings|] == siblings[1..];
    ok := root == acc;
  }

  function Neighbour(i: nat): nat { if i % 2 != 0 then i - 1 else i + 1 }

  /** The position of a leaf's ancestor on level l. */
  function Ancestor(position: nat, l: nat): nat {
    if l == 0 then position else Ancestor(position, l - 1) / 2
  }

  lemma {:induction false} AncestorInLevel(position: nat, h: nat, l: nat)
    requires l <= h && position < Pow2(h)
    ensures Ancestor(position, l) < Pow2(h - l)
  {
    if l > 0 {
      AncestorInLevel(position, h, l - 1);
      assert Pow2(h - (l - 1)) == 2 * Pow2(h - l);
    }
  }

  /** One level up: the sibling's position in the array, its side, and the parent's value. */
  lemma ProofStep(H: Hash, leaves: seq<Bytes>, h: nat, l: nat, pos: nat)
    requires |leaves| == Pow2(h) && l < h && pos < Pow2(h - l)
    ensures var q := Neighbour(Offset(h, l) + pos);
            && q < 2 * Pow2(h) - 1
            && Combine(H, Node(H, leaves, l, pos), Sibling(q % 2 != 0, Value(H, leaves, q)))
               == Node(H, leaves, l + 1, pos / 2)
  {
    Sizes(h, l);
    ChildPositions(h, l, pos / 2);
    FlatIsTree(H, leaves, h, l, Neighbour(pos), Neighbour(Offset(h, l) + pos));
  }

  lemma NeighbourInLevel(h: nat, l: nat, pos: nat)
    requires l < h && pos < Pow2(h - l)
    ensures l == 0 ==> Neighbour(pos) < Pow2(h)
    ensures l > 0 ==> Neighbour(Offset(h, l) + pos) >= Pow2(h)
  {
    Sizes(h, l);
  }

  /** What the loop has built when it reaches level l. */
  ghost predicate Climbed(H: Hash, leaves: seq<Bytes>, h: nat, l: nat, position: nat,
                          siblings: seq<Sibling>, base: nat, node: nat, size: nat)
    requires |leaves| == Pow2(h) && l <= h && 1 <= h && position < Pow2(h)
  {
    && base == Ancestor(position, l) && node == Offset(h, l) + base && size == Offset(h, if l == 0 then 1 else l)
    && |siblings| == l + 1 && siblings[0].value == leaves[position]
    && Fold(H, leaves[position], siblings[1..]) == Node(H, leaves, l, base)
  }

  lemma ClimbStarts(H: Hash, leaves: seq<Bytes>, h: nat, position: nat)
    requires |leaves| == Pow2(h) && 1 <= h && position < Pow2(h)
    ensures Climbed(H, leaves, h, 0, position, [Sibling(position % 2 != 0, leaves[position])], position, position, Pow2(h))
  {
    Sizes(h, 0);
    assert [Sibling(position % 2 != 0, leaves[position])][1..] == [];
  }

  /** One round of the loop; q is the neighbour it visits. */
  lemma ClimbGoesOn(H: Hash, leaves: seq<Bytes>, h: nat, l: nat, position: nat, siblings: seq<Sibling>,
                    base: nat, node: nat, size: nat, q: nat, siblings': seq<Sibling>, node': nat, size': nat)
    requires |leaves| == Pow2(h) && l < h && position < Pow2(h)
    requires Climbed(H, leaves, h, l, position, siblings, base, node, size)
    requires q == Neighbour(node) < 2 * |leaves| - 1
    requires siblings' == siblings + [Sibling(q % 2 != 0, Value(H, leaves, q))]
    requires size' == (if l == 0 then size else size + Pow2(h - l)) && node' == size' + base / 2
    ensures Climbed(H, leaves, h, l + 1, position, siblings', base / 2, node', size')
  {
    Sizes(h, l);
    AncestorInLevel(position, h, l);
    ProofStep(H, leaves, h, l, base);
    assert siblings'[1..][..|siblings'| - 2] == siblings[1..];
  }

  /** Where the neighbour is. */
  lemma VisitsNeighbour(H: Hash, leaves: seq<Bytes>, h: nat, l: nat, position: nat, siblings: seq<Sibling>,
                        base: nat, node: nat, size: nat, q: nat)
    requires |leaves| == Pow2(h) && l < h && position < Pow2(h)
    requires Climbed(H, leaves, h, l, position, siblings, base, node, size)
    requires q == Neighbour(node)
    ensures q < 2 * |leaves| - 1
    ensures if l == 0 then q == Neighbour(position) < |leaves| else q >= |leaves|
  {
    Sizes(h, l);
    AncestorInLevel(position, h, l);
    ProofStep(H, leaves, h, l, base);
    NeighbourInLevel(h, l, base);
  }

  ghost predicate Sha(H: Hash) { forall x :: |H(x)| == DIGEST }

  /** The number of nodes of level l, as the loop computes it. */
  method Width(h: nat, l: nat) returns (w: nat)
    requires l <= h
    ensures w == Pow2(h - l)
  {
    Pow2Divides(l, h);
    DivModUnique(Pow2(h), Pow2(l), Pow2(h - l), 0);
    w := Pow2(h) / Pow2(l);
  }

  lemma ClimbEnds(H: Hash, leaves: seq<Bytes>, h: nat, position: nat,
                  siblings: seq<Sibling>, base: nat, node: nat, size: nat)
    requires |leaves| == Pow2(h) && 1 <= h && position < Pow2(h) && leaves[position] != [] && Sha(H)
    requires Climbed(H, leaves, h, h, position, siblings, base, node, size)
    ensures Accepts(H, siblings, leaves[position], Root(H, leaves, h))
  {
    assert Pow2(0) == 1;
    AncestorInLevel(position, h, h);
    TopIsRoot(H, leaves, h);
  }

  /** The loop of Storage::getProof over the levels of a tree; no siblings stand for the cleared proof. */
  method CollectSiblings(H: Hash, h: nat, tree: seq<Bytes>, ghost leaves: seq<Bytes>, mine: Bytes, position: nat)
    returns (siblings: seq<Sibling>)
    requires h >= 1 && Sha(H) && |leaves| == Pow2(h) && Filled(tree, H, leaves)
    requires position < Pow2(h) ==> mine == leaves[position] != []
    ensures position < Pow2(h) ==> Neighbour(position) < Pow2(h)
    ensures position < Pow2(h) ==>
              if leaves[Neighbour(position)] == [] then siblings == []
              else |siblings| == h + 1 && Accepts(H, siblings, mine, Root(H, leaves, h))
  {
    var base: nat, node: nat, size: nat := position, position, Pow2(h);
    siblings := [Sibling(node % 2 != 0, mine)];
    if position < Pow2(h) {
      ClimbStarts(H, leaves, h, position);
      NeighbourInLevel(h, 0, position);
    }
    for i := 0 to h
      invariant position < Pow2(h) && i > 0 ==> leaves[Neighbour(position)] != []
      invariant position < Pow2(h) ==> Climbed(H, leaves, h, i, position, siblings, base, node, size)
    {
      var q := if node % 2 != 0 then node - 1 else node + 1;
      if position < Pow2(h) {
        VisitsNeighbour(H, leaves, h, i, position, siblings, base, node, size, q);
      }
      if q >= |tree| || tree[q] == [] {
        siblings := [];
        return;
      }
      var siblings', size' := siblings + [Sibling(q % 2 != 0, tree[q])], size;
      if i != 0 {
        var width := Width(h, i);
        size' := size + width;
      }
      if position < Pow2(h) {
        ClimbGoesOn(H, leaves, h, i, position, siblings, base, node, size, q, siblings', size' + base / 2, size');
      }
      siblings, base, size := siblings', base / 2, size';
      node := size + base;
    }
    if position < Pow2(h) {
      ClimbEnds(H, leaves, h, position, siblings, base, node, size);
    }
  }

  /** The second half of Storage::getProof, from the stored digests: the tree is regenerated and climbed.
      For a position among the leaves the proof is accepted against the root, unless the digest stored
      there, or the one beside it, is empty. */
  method BuildProof(H: Hash, lookup: map<Bytes, Bytes>, h: nat, digests: seq<Bytes>, position: nat)
    returns (siblings: seq<Sibling>)
    requires h >= 1 && Sha(H) && Right(H, lookup)
    ensures position >= |digests| || digests[position] == [] ==> siblings == []
    ensures position < |digests| && position < Pow2(h) && digests[position] != [] ==>
              if Neighbour(position) < |digests| && digests[Neighbour(position)] == [] then siblings == []
              else |siblings| == h + 1 && Accepts(H, siblings, digests[position], Root(H, Padded(digests, Pow2(h)), h))
  {
    var generator := new MerkleTree(H, lookup, h);
    generator.Generate(digests);
    var tree := generator.tree[..];
    var mine: Bytes := if position < |digests| then digests[position] else [];
    if mine == [] {
      return [];
    }
    siblings := CollectSiblings(H, h, tree, Padded(digests, Pow2(h)), mine, position);
  }

  // ---- binding ----

  ghost predicate Collision(H: Hash, a: Bytes, b: Bytes) { a != b && H(a) == H(b) }

  ghost predicate AllDigests(values: seq<Bytes>) { forall i | 0 <= i < |values| :: |values[i]| == DIGEST }

  ghost predicate SiblingDigests(siblings: seq<Sibling>) {
    forall i | 0 <= i < |siblings| :: |siblings[i].value| == DIGEST
  }

  ghost predicate SameSides(s: seq<Sibling>, s': seq<Sibling>) {
    |s| == |s'| && forall i | 0 <= i < |s| :: s[i].right == s'[i].right
  }

  lemma FoldLength(H: Hash, v: Bytes, siblings: seq<Sibling>)
    requires Sha(H) && |v| == DIGEST
    ensures |Fold(H, v, siblings)| == DIGEST
  {
  }

  /** Two different paths with the same sides that lead to the same value hold two inputs of the same hash. */
  lemma {:induction false} PathBinding(H: Hash, v: Bytes, s: seq<Sibling>, v': Bytes, s': seq<Sibling>)
    returns (a: Bytes, b: Bytes)
    requires Sha(H) && |v| == |v'| == DIGEST && SiblingDigests(s) && SiblingDigests(s') && SameSides(s, s')
    requires Fold(H, v, s) == Fold(H, v', s') && (v != v' || s != s')
    ensures Collision(H, a, b)
    decreases |s|
  {
    var n := |s| - 1;
    var w, w' := Fold(H, v, s[..n]), Fold(H, v', s'[..n]);
    a, b := Joined(w, s[n]), Joined(w', s'[n]);
    FoldLength(H, v, s[..n]);
    FoldLength(H, v', s'[..n]);
    if a == b {
      JoinedApart(w, s[n], w', s'[n]);
      assert s == s[..n] + [s[n]] && s' == s'[..n] + [s'[n]];
      a, b := PathBinding(H, v, s[..n], v', s'[..n]);
    }
  }

  lemma JoinedApart(w: Bytes, s: Sibling, w': Bytes, s': Sibling)
    requires |w| == |w'| == |s.value| == |s'.value| == DIGEST && s.right == s'.right && Joined(w, s) == Joined(w', s')
    ensures w == w' && s == s'
  {
    if s.right {
      ConcatApart(w, s.value, w', s'.value);
    } else {
      ConcatApart(s.value, w, s'.value, w');
    }
  }

  /** Two accepted proofs for one root, with the same sides but different leaves, give a collision. */
  lemma ProofBinding(H: Hash, s: seq<Sibling>, s': seq<Sibling>, mine: Bytes, mine': Bytes, root: Bytes)
    returns (a: Bytes, b: Bytes)
    requires Sha(H) && SiblingDigests(s) && SiblingDigests(s') && SameSides(s, s')
    requires Accepts(H, s, mine, root) && Accepts(H, s', mine', root) && mine != mine'
    ensures Collision(H, a, b)
  {
    a, b := PathBinding(H, mine, s[1..], mine', s'[1..]);
  }

  lemma {:induction false} RootLength(H: Hash, leaves: seq<Bytes>, l: nat)
    requires Sha(H) && |leaves| == Pow2(l) && AllDigests(leaves)
    ensures |Root(H, leaves, l)| == DIGEST
  {
  }

  lemma ConcatApart(p: Bytes, q: Bytes, p': Bytes, q': Bytes)
    requires |p| == |p'| && p + q == p' + q'
    ensures p == p' && q == q'
  {
    assert p == (p + q)[..|p|] && q == (p + q)[|p|..] && p' == (p' + q')[..|p|] && q' == (p' + q')[|p|..];
  }

  /** Two different lists of leaves with the same root give a collision. */
  lemma {:induction false} RootBinding(H: Hash, leaves: seq<Bytes>, leaves': seq<Bytes>, l: nat)
    returns (a: Bytes, b: Bytes)
    requires Sha(H) && |leaves| == |leaves'| == Pow2(l) && AllDigests(leaves) && AllDigests(leaves')
    requires Root(H, leaves, l) == Root(H, leaves', l) && leaves != leaves'
    ensures Collision(H, a, b)
    decreases l
  {
    var half := Pow2(l - 1);
    var x, y := leaves[..half], leaves[half..];
    var x', y' := leaves'[..half], leaves'[half..];
    assert leaves == x + y && leaves' == x' + y';
    var p, q := Root(H, x, l - 1), Root(H, y, l - 1);
    var p', q' := Root(H, x', l - 1), Root(H, y', l - 1);
    RootLength(H, x, l - 1);
    RootLength(H, x', l - 1);
    a, b := p + q, p' + q';
    if a == b {
      ConcatApart(p, q, p', q');
      if x != x' {
        a, b := RootBinding(H, x, x', l - 1);
      } else {
        a, b := RootBinding(H, y, y', l - 1);
      }
    }
  }

  /** Two digest lists whose trees have the same root have the same padded leaves, or give a collision. */
  lemma TreeBinding(H: Hash, h: nat, digests: seq<Bytes>, digests': seq<Bytes>)
    returns (a: Bytes, b: Bytes)
    requires Sha(H) && AllDigests(digests) && AllDigests(digests')
    requires var n := Pow2(h);
             && Value(H, Padded(digests, n), 2 * n - 2) == Value(H, Padded(digests', n), 2 * n - 2)
             && Padded(digests, n) != Padded(digests', n)
    ensures Collision(H, a, b)
  {
    LastIsRoot(H, Padded(digests, Pow2(h)), h);
    LastIsRoot(H, Padded(digests', Pow2(h)), h);
    a, b := RootBinding(H, Padded(digests, Pow2(h)), Padded(digests', Pow2(h)), h);
  }
}
