/**
 The Merkle tree of the audit journal.  A level of odd length repeats its last node, so
 this is not the tree of section 2.1 of RFC 6962.  The hash is an arbitrary function; the
 theorems conclude "equal, or these two hashed strings collide", never injectivity.
 */
module Merkle {
  import opened Common

  type Hash = Bytes -> Digest

  const GENESIS: Digest := Digest(Zeros(32))

  function Zeros(n: nat): (r: Bytes)
    ensures |r| == n
  {
    seq(n, _ => 0)
  }

  /** An even number of nodes, the last repeated if need be. */
  function Padded(nodes: seq<Digest>): (r: seq<Digest>) {
    if |nodes| % 2 == 1 then nodes + [nodes[|nodes| - 1]] else nodes
  }

  function Concat(left: Digest, right: Digest): Bytes {
    left.bytes + right.bytes
  }

  /** The strings hashed into the parents. */
  function Pairs(nodes: seq<Digest>): (r: seq<Bytes>)
    requires |nodes| % 2 == 0
  {
    seq(|nodes| / 2, i requires 0 <= i < |nodes| / 2 => Concat(nodes[2 * i], nodes[2 * i + 1]))
  }

  function HashEach(h: Hash, strings: seq<Bytes>): (r: seq<Digest>) {
    seq(|strings|, i requires 0 <= i < |strings| => h(strings[i]))
  }

  function LevelUp(h: Hash, nodes: seq<Digest>): (r: seq<Digest>)
    ensures |nodes| >= 2 ==> 0 < |r| < |nodes|
  {
    HashEach(h, Pairs(Padded(nodes)))
  }

  function Root(h: Hash, nodes: seq<Digest>): Digest
    decreases |nodes|
  {
    if nodes == [] then GENESIS
    else if |nodes| == 1 then nodes[0]
    else Root(h, LevelUp(h, nodes))
  }

  /** Every string hashed while computing the root. */
  ghost function Hashed(h: Hash, nodes: seq<Digest>): seq<Bytes>
    decreases |nodes|
  {
    if |nodes| <= 1 then [] else Pairs(Padded(nodes)) + Hashed(h, LevelUp(h, nodes))
  }

  /** A string of s and a different string of t have the same hash. */
  ghost predicate Collision(h: Hash, s: seq<Bytes>, t: seq<Bytes>) {
    exists x, y :: x in s && y in t && x != y && h(x) == h(y)
  }

  method MerkleRoot(h: Hash, leaves: seq<Digest>) returns (root: Digest)
    ensures root == Root(h, leaves)
  {
    var nodes: seq<Digest> := leaves;
    if nodes == [] {
      return GENESIS;
    }
    while |nodes| > 1
      invariant nodes != [] && Root(h, nodes) == Root(h, leaves)
      decreases |nodes|
    {
      nodes := HashEach(h, Pairs(Padded(nodes)));
    }
    return nodes[0];
  }

  lemma {:induction false} SameParents(h: Hash, a: seq<Digest>, b: seq<Digest>)
    requires |a| == |b| && |a| >= 2 && LevelUp(h, a) == LevelUp(h, b)
    ensures a == b || Collision(h, Hashed(h, a), Hashed(h, b))
  {
    var p, q := Pairs(Padded(a)), Pairs(Padded(b));
    if !Collision(h, Hashed(h, a), Hashed(h, b)) {
      forall i | 0 <= i < |p|
        ensures p[i] == q[i]
      {
        assert LevelUp(h, a)[i] == h(p[i]) && LevelUp(h, b)[i] == h(q[i]);
        assert p[i] in Hashed(h, a) && q[i] in Hashed(h, b);
      }
      SamePairs(a, b);
    }
  }

  lemma {:induction false} SamePairs(a: seq<Digest>, b: seq<Digest>)
    requires |a| == |b| && Pairs(Padded(a)) == Pairs(Padded(b))
    ensures a == b
  {
    forall i | 0 <= i < |a|
      ensures a[i] == b[i]
    {
      var p, q, k := Padded(a), Padded(b), i / 2;
      var x, y := Pairs(p)[k], Pairs(q)[k];
      assert x[..32] == p[2 * k].bytes && x[32..] == p[2 * k + 1].bytes;
      assert y[..32] == q[2 * k].bytes && y[32..] == q[2 * k + 1].bytes;
      assert i == 2 * k || i == 2 * k + 1;
    }
  }

  /** Binding: leaf lists of one length with one root are equal, or a collision is exhibited. */
  lemma {:induction false} RootBinding(h: Hash, a: seq<Digest>, b: seq<Digest>)
    requires |a| == |b| && Root(h, a) == Root(h, b)
    ensures a == b || Collision(h, Hashed(h, a), Hashed(h, b))
    decreases |a|
  {
    if |a| >= 2 {
      RootBinding(h, LevelUp(h, a), LevelUp(h, b));
      if LevelUp(h, a) == LevelUp(h, b) {
        SameParents(h, a, b);
      } else {
        var x, y :| x in Hashed(h, LevelUp(h, a)) && y in Hashed(h, LevelUp(h, b)) && x != y && h(x) == h(y);
        assert x in Hashed(h, a) && y in Hashed(h, b);
      }
    }
  }

  /** Without the length the root does not bind: the repeated last leaf is invisible ... */
  lemma {:induction false} RepeatedLeafSameRoot(h: Hash, a: seq<Digest>)
    requires |a| >= 3 && |a| % 2 == 1
    ensures Root(h, a) == Root(h, a + [a[|a| - 1]])
  {
    var b: seq<Digest> := a + [a[|a| - 1]];
    PaddedEven(b);
    assert Padded(a) == b;
    RootStep(h, a);
    RootStep(h, b);
  }

  /** ... and so is replacing all leaves by their parents. */
  lemma {:induction false} ParentsSameRoot(h: Hash, a: seq<Digest>)
    requires |a| >= 2
    ensures |LevelUp(h, a)| != |a| && Root(h, LevelUp(h, a)) == Root(h, a)
  {}

  lemma {:induction false} PaddedEven(nodes: seq<Digest>)
    requires |nodes| % 2 == 0
    ensures Padded(nodes) == nodes
  {}

  lemma {:induction false} RootStep(h: Hash, nodes: seq<Digest>)
    requires |nodes| >= 2
    ensures Root(h, nodes) == Root(h, HashEach(h, Pairs(Padded(nodes))))
    ensures 0 < |HashEach(h, Pairs(Padded(nodes)))| < |nodes|
  {}

  // ---------- what the root is ----------

  /** The node next to i: the last of an odd level stands next to itself. */
  function Beside(nodes: seq<Digest>, i: nat): Digest
    requires i < |nodes|
  {
    if i % 2 == 1 then nodes[i - 1] else if i + 1 < |nodes| then nodes[i + 1] else nodes[i]
  }

  /** No leaves give 32 zero bytes, one leaf is its own root, and otherwise any list that holds, for each pair
      of leaves, the hash of the left one followed by the right one has the same root. */
  lemma {:induction false} RootLaw(h: Hash, leaves: seq<Digest>, parents: seq<Digest>)
    requires |parents| == (|leaves| + 1) / 2
    requires forall k | 0 <= k < |parents| :: parents[k] == h(leaves[2 * k].bytes + Beside(leaves, 2 * k).bytes)
    ensures leaves == [] ==> forall i | 0 <= i < 32 :: Root(h, leaves).bytes[i] == 0
    ensures |leaves| == 1 ==> Root(h, leaves) == leaves[0]
    ensures |leaves| >= 2 ==> Root(h, leaves) == Root(h, parents)
  {
    if |leaves| >= 2 {
      assert LevelUp(h, leaves) == parents;
    }
  }

  /** Hash a node upwards with its siblings, on the left or on the right as its position says. */
  function Climb(h: Hash, node: Digest, i: nat, siblings: seq<Digest>): Digest
    decreases |siblings|
  {
    if siblings == [] then node
    else
      var s := siblings[0];
      Climb(h, if i % 2 == 0 then h(node.bytes + s.bytes) else h(s.bytes + node.bytes), i / 2, siblings[1..])
  }

  lemma {:induction false} ParentOf(h: Hash, leaves: seq<Digest>, i: nat)
    requires |leaves| >= 2 && i < |leaves|
    ensures i / 2 < |LevelUp(h, leaves)|
    ensures LevelUp(h, leaves)[i / 2] == if i % 2 == 0 then h(leaves[i].bytes + Beside(leaves, i).bytes)
                                         else h(Beside(leaves, i).bytes + leaves[i].bytes)
  {
    var p, k := Padded(leaves), i / 2;
    assert Pairs(p)[k] == p[2 * k].bytes + p[2 * k + 1].bytes;
    assert i == 2 * k || i == 2 * k + 1;
  }

  lemma {:induction false} ClimbOne(h: Hash, node: Digest, i: nat, s: Digest, rest: seq<Digest>)
    ensures Climb(h, node, i, [s] + rest)
         == Climb(h, if i % 2 == 0 then h(node.bytes + s.bytes) else h(s.bytes + node.bytes), i / 2, rest)
  {
    assert ([s] + rest)[1..] == rest;
  }

  /** Inclusion: every leaf hashes up to the root along some siblings, the first of which is the leaf beside it. */
  lemma {:induction false} Inclusion(h: Hash, leaves: seq<Digest>, i: nat) returns (siblings: seq<Digest>)
    requires i < |leaves|
    ensures Climb(h, leaves[i], i, siblings) == Root(h, leaves)
    ensures siblings == [] <==> |leaves| == 1
    ensures siblings != [] ==> siblings[0] == Beside(leaves, i)
    decreases |leaves|
  {
    if |leaves| == 1 {
      return [];
    }
    ParentOf(h, leaves, i);
    RootStep(h, leaves);
    assert Root(h, leaves) == Root(h, LevelUp(h, leaves));
    hide LevelUp, Beside, Climb, Root;
    var rest := Inclusion(h, LevelUp(h, leaves), i / 2);
    ClimbOne(h, leaves[i], i, Beside(leaves, i), rest);
    siblings := [Beside(leaves, i)] + rest;
  }

  function Pow2(k: nat): (r: nat)
    ensures r > 0
  {
    if k == 0 then 1 else 2 * Pow2(k - 1)
  }

  lemma {:induction false} LevelSplits(h: Hash, a: seq<Digest>, b: seq<Digest>)
    requires |a| == |b| && |a| % 2 == 0 && |a| > 0
    ensures LevelUp(h, a + b) == LevelUp(h, a) + LevelUp(h, b) && |LevelUp(h, a)| == |LevelUp(h, b)| == |a| / 2
  {
    PaddedEven(a);
    PaddedEven(b);
    PaddedEven(a + b);
    assert Pairs(a + b) == Pairs(a) + Pairs(b);
  }

  /** Two full trees side by side hash their roots together. */
  lemma {:induction false} SplitLaw(h: Hash, a: seq<Digest>, b: seq<Digest>, k: nat)
    requires |a| == |b| == Pow2(k)
    ensures Root(h, a + b) == h(Root(h, a).bytes + Root(h, b).bytes)
    decreases k
  {
    hide LevelUp, Root;
    if k == 0 {
      SplitOne(h, a[0], b[0]);
      assert a == [a[0]] && b == [b[0]];
    } else {
      assert |a| == 2 * Pow2(k - 1);
      LevelSplits(h, a, b);
      RootUp(h, a);
      RootUp(h, b);
      RootUp(h, a + b);
      SplitLaw(h, LevelUp(h, a), LevelUp(h, b), k - 1);
    }
  }

  lemma {:induction false} SplitOne(h: Hash, x: Digest, y: Digest)
    ensures Root(h, [x] + [y]) == h(x.bytes + y.bytes) && Root(h, [x]) == x && Root(h, [y]) == y
  {
    RootLaw(h, [x] + [y], [h(x.bytes + y.bytes)]);
  }

  lemma {:induction false} RootUp(h: Hash, nodes: seq<Digest>)
    requires |nodes| >= 2
    ensures Root(h, nodes) == Root(h, LevelUp(h, nodes))
  {}
}
