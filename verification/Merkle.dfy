/** The Merkle root of a list of transactions. */
module Merkle {
  import opened Machine
  import opened Chain
  import opened PowBuffer
  import opened Target
  import opened Radix

  const ZERO: Bytes32 := Repeated(0, 32)

  function Leaf(sha: Digest, tx: Transaction): Bytes32 {
    if tx.transactionId.None? then ZERO else sha(tx.transactionId.value)
  }

  function Leaves(sha: Digest, txs: seq<Transaction>): (leaves: seq<Bytes32>)
    ensures |leaves| == |txs| && forall i :: 0 <= i < |txs| ==> leaves[i] == Leaf(sha, txs[i])
  {
    seq(|txs|, i requires 0 <= i < |txs| => Leaf(sha, txs[i]))
  }

  // ---- The tree ----

  /** How many nodes there are on level `k` above `n` leaves. */
  function LevelSize(n: nat, k: nat): nat {
    if k == 0 then n else (LevelSize(n, k - 1) + 1) / 2
  }

  /** Node `i` of level `k`: the hash of its two children, the last of which stands for both if there is only one. */
  function Node(sha: Digest, leaves: seq<Bytes32>, k: nat, i: nat): Bytes32
    requires i < LevelSize(|leaves|, k)
    decreases k
  {
    if k == 0 then leaves[i]
    else sha(Node(sha, leaves, k - 1, 2 * i) + Node(sha, leaves, k - 1, RightChild(LevelSize(|leaves|, k - 1), i)))
  }

  function RightChild(size: nat, i: nat): (right: nat)
    requires 2 * i < size
    ensures right < size
  {
    if 2 * i + 1 < size then 2 * i + 1 else 2 * i
  }

  /** The level on which one node is left. */
  function Height(n: nat): nat {
    if n <= 1 then 0 else 1 + Height((n + 1) / 2)
  }

  lemma {:induction false} LevelShift(n: nat, k: nat)
    ensures LevelSize(n, k + 1) == LevelSize((n + 1) / 2, k)
  {
    if k > 0 {
      LevelShift(n, k - 1);
    }
  }

  lemma {:induction false} TopIsSingle(n: nat)
    requires n > 0
    ensures LevelSize(n, Height(n)) == 1
  {
    if n > 1 {
      TopIsSingle((n + 1) / 2);
      LevelShift(n, Height((n + 1) / 2));
    }
  }

  function TreeRoot(sha: Digest, leaves: seq<Bytes32>): Bytes32 {
    if leaves == [] then ZERO
    else
      TopIsSingle(|leaves|);
      Node(sha, leaves, Height(|leaves|), 0)
  }

  function Root(sha: Digest, txs: seq<Transaction>): Bytes32 {
    TreeRoot(sha, Leaves(sha, txs))
  }

  // ---- The level-by-level loop ----

  method NextLevel(sha: Digest, ghost base: seq<Bytes32>, ghost k: nat, leaves: seq<Bytes32>)
      returns (next: seq<Bytes32>)
    requires |leaves| == LevelSize(|base|, k)
    requires forall i :: 0 <= i < |leaves| ==> leaves[i] == Node(sha, base, k, i)
    ensures |next| == LevelSize(|base|, k + 1)
    ensures forall i :: 0 <= i < |next| ==> next[i] == Node(sha, base, k + 1, i)
  {
    next := [];
    var i := 0;
    while i < |leaves|
      invariant i == 2 * |next| <= |leaves| + 1
      invariant forall j :: 0 <= j < |next| ==> next[j] == Node(sha, base, k + 1, j)
      decreases |leaves| + 1 - i
    {
      var left: seq<byte> := leaves[i];
      var right: seq<byte> := if i + 1 < |leaves| then leaves[i + 1] else leaves[i];
      assert Node(sha, base, k + 1, |next|) == sha(left + right);
      next := next + [sha(left + right)];
      i := i + 2;
    }
  }

  method BuildLeaves(sha: Digest, txs: seq<Transaction>) returns (leaves: seq<Bytes32>)
    ensures leaves == Leaves(sha, txs)
  {
    leaves := [];
    for i := 0 to |txs|
      invariant |leaves| == i && forall k :: 0 <= k < i ==> leaves[k] == Leaf(sha, txs[k])
    {
      leaves := leaves + [if txs[i].transactionId.None? then ZERO else sha(txs[i].transactionId.value)];
    }
  }

  method BuildMerkleRoot(sha: Digest, txs: seq<Transaction>) returns (root: Bytes32)
    ensures root == Root(sha, txs)
  {
    if txs == [] {
      return ZERO;
    }
    var leaves := BuildLeaves(sha, txs);
    ghost var base := leaves;
    ghost var k := 0;
    while |leaves| > 1
      invariant |leaves| == LevelSize(|base|, k) > 0 && k + Height(|leaves|) == Height(|base|)
      invariant forall i :: 0 <= i < |leaves| ==> leaves[i] == Node(sha, base, k, i)
      decreases |leaves|
    {
      leaves := NextLevel(sha, base, k, leaves);
      k := k + 1;
    }
    root := leaves[0];
  }

  // ---- What a root commits to ----

  ghost predicate LevelAgrees(sha: Digest, a: seq<Bytes32>, b: seq<Bytes32>, k: nat)
    requires |a| == |b|
  {
    forall i :: 0 <= i < LevelSize(|a|, k) ==> Node(sha, a, k, i) == Node(sha, b, k, i)
  }

  lemma SplitPairs(a: Bytes32, b: Bytes32, c: Bytes32, d: Bytes32)
    requires a + b == c + d
    ensures a == c && b == d
  {
    assert (a + b)[..32] == a && (c + d)[..32] == c;
    assert (a + b)[32..] == b && (c + d)[32..] == d;
  }

  /** Equal nodes have equal children, or collide. */
  lemma ChildrenAgree(sha: Digest, a: seq<Bytes32>, b: seq<Bytes32>, k: nat, j: nat)
      returns (x: seq<byte>, y: seq<byte>)
    requires |a| == |b| && LevelAgrees(sha, a, b, k + 1) && j < LevelSize(|a|, k)
    ensures Node(sha, a, k, j) == Node(sha, b, k, j) || (Collision(sha, x, y) && |x| == |y| == 64)
  {
    var i := j / 2;
    var right := RightChild(LevelSize(|a|, k), i);
    x := Node(sha, a, k, 2 * i) + Node(sha, a, k, right);
    y := Node(sha, b, k, 2 * i) + Node(sha, b, k, right);
    assert sha(x) == Node(sha, a, k + 1, i) && sha(y) == Node(sha, b, k + 1, i);
    if x == y {
      SplitPairs(Node(sha, a, k, 2 * i), Node(sha, a, k, right), Node(sha, b, k, 2 * i), Node(sha, b, k, right));
      assert j == 2 * i || j == right;
    }
  }

  lemma {:induction false} LevelsAgree(sha: Digest, a: seq<Bytes32>, b: seq<Bytes32>, k: nat)
      returns (x: seq<byte>, y: seq<byte>)
    requires |a| == |b| && LevelAgrees(sha, a, b, k)
    ensures a == b || (Collision(sha, x, y) && |x| == |y| == 64)
  {
    if k == 0 {
      x, y := [], [];
      forall i | 0 <= i < |a|
        ensures a[i] == b[i]
      {
        assert Node(sha, a, 0, i) == Node(sha, b, 0, i);
      }
    } else {
      var below := k - 1;
      if LevelAgrees(sha, a, b, below) {
        x, y := LevelsAgree(sha, a, b, below);
      } else {
        var j :| 0 <= j < LevelSize(|a|, below) && Node(sha, a, below, j) != Node(sha, b, below, j);
        x, y := ChildrenAgree(sha, a, b, below, j);
      }
    }
  }

  /** Lists of one length with the same root have the same leaves, or exhibit a collision of the hash. */
  lemma EqualRoots(sha: Digest, a: seq<Transaction>, b: seq<Transaction>) returns (x: seq<byte>, y: seq<byte>)
    requires |a| == |b| && Root(sha, a) == Root(sha, b)
    ensures (forall i :: 0 <= i < |a| ==> Leaf(sha, a[i]) == Leaf(sha, b[i]))
            || (Collision(sha, x, y) && |x| == |y| == 64)
  {
    x, y := [], [];
    if a != [] {
      TopIsSingle(|a|);
      x, y := LevelsAgree(sha, Leaves(sha, a), Leaves(sha, b), Height(|a|));
      if Leaves(sha, a) == Leaves(sha, b) {
        forall i | 0 <= i < |a|
          ensures Leaf(sha, a[i]) == Leaf(sha, b[i])
        {
          assert Leaves(sha, a)[i] == Leaves(sha, b)[i];
        }
      }
    }
  }

  /** They then have the same transaction ids, or exhibit a collision, or an id whose hash is the leaf of a transaction
      without one. */
  lemma EqualIds(sha: Digest, a: seq<Transaction>, b: seq<Transaction>) returns (x: seq<byte>, y: seq<byte>)
    requires |a| == |b| && Root(sha, a) == Root(sha, b)
    ensures (forall i :: 0 <= i < |a| ==> a[i].transactionId == b[i].transactionId)
            || Collision(sha, x, y) || (|x| == 32 && sha(x) == ZERO)
  {
    x, y := EqualRoots(sha, a, b);
    if !Collision(sha, x, y) {
      if i :| 0 <= i < |a| && a[i].transactionId != b[i].transactionId {
        assert Leaf(sha, a[i]) == Leaf(sha, b[i]);
        x, y := DifferentIds(sha, a[i], b[i]);
      }
    }
  }

  lemma DifferentIds(sha: Digest, a: Transaction, b: Transaction) returns (x: seq<byte>, y: seq<byte>)
    requires a.transactionId != b.transactionId && Leaf(sha, a) == Leaf(sha, b)
    ensures Collision(sha, x, y) || (|x| == 32 && sha(x) == ZERO)
  {
    x := if a.transactionId.Some? then a.transactionId.value else b.transactionId.value;
    y := if b.transactionId.Some? then b.transactionId.value else x;
  }

  /** The length matters: an odd list has the root of the list with its last transaction repeated. */
  lemma OddTail(sha: Digest, txs: seq<Transaction>)
    requires |txs| > 1 && |txs| % 2 == 1
    ensures Root(sha, txs + [txs[|txs| - 1]]) == Root(sha, txs)
  {
    var a, b := Leaves(sha, txs), Leaves(sha, txs + [txs[|txs| - 1]]);
    var k := Height(|a|) - 1;
    TopIsSingle(|a|);
    OddTailLevel(sha, a, b, k, 0);
  }

  lemma {:induction false} OddTailLevel(sha: Digest, a: seq<Bytes32>, b: seq<Bytes32>, k: nat, i: nat)
    requires |a| % 2 == 1 && b == a + [a[|a| - 1]] && i < LevelSize(|a|, k + 1)
    ensures LevelSize(|b|, k + 1) == LevelSize(|a|, k + 1)
    ensures Node(sha, b, k + 1, i) == Node(sha, a, k + 1, i)
    decreases k
  {
    LevelShift(|a|, k);
    LevelShift(|b|, k);
    if k > 0 {
      OddTailLevel(sha, a, b, k - 1, 2 * i);
      OddTailLevel(sha, a, b, k - 1, RightChild(LevelSize(|a|, k), i));
    }
  }

  // ---- The root of two halves ----

  lemma {:induction false} PowerLevels(k: nat, j: nat)
    requires j <= k
    ensures LevelSize(Pow(2, k), j) == Pow(2, k - j)
  {
    if j > 0 {
      PowerLevels(k, j - 1);
    }
  }

  lemma {:induction false} PowerHeight(k: nat)
    ensures Height(Pow(2, k)) == k
  {
    if k > 0 {
      PowPositive(2, k - 1);
      PowerHeight(k - 1);
    }
  }

  lemma TwoChildren(sha: Digest, leaves: seq<Bytes32>, k: nat, i: nat)
    requires i < LevelSize(|leaves|, k + 1) && 2 * i + 1 < LevelSize(|leaves|, k)
    ensures Node(sha, leaves, k + 1, i) == sha(Node(sha, leaves, k, 2 * i) + Node(sha, leaves, k, 2 * i + 1))
  {
  }

  lemma SameChildren(sha: Digest, x: seq<Bytes32>, y: seq<Bytes32>, k: nat, p: nat, i: nat)
    requires i < LevelSize(|y|, k + 1) && 2 * i + 1 < LevelSize(|y|, k)
    requires p + i < LevelSize(|x|, k + 1) && 2 * (p + i) + 1 < LevelSize(|x|, k)
    requires Node(sha, x, k, 2 * (p + i)) == Node(sha, y, k, 2 * i)
    requires Node(sha, x, k, 2 * (p + i) + 1) == Node(sha, y, k, 2 * i + 1)
    ensures Node(sha, x, k + 1, p + i) == Node(sha, y, k + 1, i)
  {
    TwoChildren(sha, x, k, p + i);
    TwoChildren(sha, y, k, i);
  }

  /** From leaf `p * 2^k` on, the leaves of `x` are those of `y`, of which there are a power of two. */
  ghost predicate Inside(x: seq<Bytes32>, y: seq<Bytes32>, n: nat, k: nat, p: nat) {
    && |x| == Pow(2, n) && |y| == Pow(2, k) && k <= n && p < Pow(2, n - k)
    && forall i :: 0 <= i < |y| ==> p * |y| + i < |x| && x[p * |y| + i] == y[i]
  }

  lemma PlaceBelow(p: nat, q: nat, size: nat, i: nat)
    requires p < q && i < size
    ensures p * size + i < q * size
  {
    MulLe(p + 1, q, size);
    assert (p + 1) * size == p * size + size;
  }

  lemma InsideSizes(n: nat, k: nat, p: nat, j: nat, i: nat)
    requires j <= k <= n && p < Pow(2, n - k) && i < Pow(2, k - j)
    ensures LevelSize(Pow(2, k), j) == Pow(2, k - j)
    ensures p * Pow(2, k - j) + i < LevelSize(Pow(2, n), j)
  {
    PowerLevels(k, j);
    PowerLevels(n, j);
    PowAdd(2, n - k, k - j);
    PlaceBelow(p, Pow(2, n - k), Pow(2, k - j), i);
  }

  /** Node `i` of `y` on level `j` is node `q + i` of `x`. */
  ghost predicate SameNode(sha: Digest, x: seq<Bytes32>, y: seq<Bytes32>, j: nat, q: nat, i: nat) {
    i < LevelSize(|y|, j) && q + i < LevelSize(|x|, j) && Node(sha, x, j, q + i) == Node(sha, y, j, i)
  }

  lemma SameParent(sha: Digest, x: seq<Bytes32>, y: seq<Bytes32>, j: nat, q: nat, i: nat)
    requires i < LevelSize(|y|, j + 1) && q + i < LevelSize(|x|, j + 1)
    requires SameNode(sha, x, y, j, 2 * q, 2 * i) && SameNode(sha, x, y, j, 2 * q, 2 * i + 1)
    ensures SameNode(sha, x, y, j + 1, q, i)
  {
    assert 2 * q + 2 * i == 2 * (q + i) && 2 * q + (2 * i + 1) == 2 * (q + i) + 1;
    SameChildren(sha, x, y, j, q, i);
  }

  lemma InsideLeaf(sha: Digest, x: seq<Bytes32>, y: seq<Bytes32>, n: nat, k: nat, p: nat, i: nat)
    requires Inside(x, y, n, k, p) && i < |y|
    ensures SameNode(sha, x, y, 0, p * |y|, i)
  {
    var leaf := y[i];
    assert x[p * |y| + i] == leaf;
  }

  lemma InsidePlace(x: seq<Bytes32>, y: seq<Bytes32>, n: nat, k: nat, p: nat, j: nat, i: nat)
    requires Inside(x, y, n, k, p) && 0 < j <= k && i < Pow(2, k - j)
    ensures i < LevelSize(|y|, j) && p * Pow(2, k - j) + i < LevelSize(|x|, j)
    ensures p * Pow(2, k - (j - 1)) == 2 * (p * Pow(2, k - j)) && 2 * i + 1 < Pow(2, k - (j - 1))
  {
    InsideSizes(n, k, p, j, i);
    TwiceTheSize(p, k, j);
  }

  /** Then the nodes of `x` above them are those of `y`. */
  lemma {:induction false} InsideNode(sha: Digest, x: seq<Bytes32>, y: seq<Bytes32>, n: nat, k: nat, p: nat, j: nat,
      i: nat)
    requires Inside(x, y, n, k, p) && j <= k && i < Pow(2, k - j)
    ensures SameNode(sha, x, y, j, p * Pow(2, k - j), i)
    decreases j
  {
    if j == 0 {
      InsideLeaf(sha, x, y, n, k, p, i);
    } else {
      InsidePlace(x, y, n, k, p, j, i);
      InsideNode(sha, x, y, n, k, p, j - 1, 2 * i);
      InsideNode(sha, x, y, n, k, p, j - 1, 2 * i + 1);
      SameParent(sha, x, y, j - 1, p * Pow(2, k - j), i);
    }
  }

  lemma TwiceTheSize(p: nat, k: nat, j: nat)
    requires 0 < j <= k
    ensures p * Pow(2, k - (j - 1)) == 2 * (p * Pow(2, k - j))
  {
    assert Pow(2, k - (j - 1)) == 2 * Pow(2, k - j);
  }

  lemma RootOfPower(sha: Digest, leaves: seq<Bytes32>, k: nat)
    requires |leaves| == Pow(2, k)
    ensures LevelSize(|leaves|, k) == 1 && TreeRoot(sha, leaves) == Node(sha, leaves, k, 0)
  {
    PowPositive(2, k);
    PowerHeight(k);
    PowerLevels(k, k);
  }

  /** The root of two lists of one power of two, one after the other, is the hash of their roots in this order. */
  lemma RootOfHalves(sha: Digest, a: seq<Bytes32>, b: seq<Bytes32>, k: nat)
    requires |a| == |b| == Pow(2, k)
    ensures TreeRoot(sha, a + b) == sha(TreeRoot(sha, a) + TreeRoot(sha, b))
  {
    var x := a + b;
    RootOfPower(sha, a, k);
    RootOfPower(sha, b, k);
    RootOfPower(sha, x, k + 1);
    PowerLevels(k + 1, k);
    InsideNode(sha, x, a, k + 1, k, 0, k, 0);
    InsideNode(sha, x, b, k + 1, k, 1, k, 0);
    TwoChildren(sha, x, k, 0);
  }
}
