/** Merkle roots and inclusion proofs over byte strings with the duplicate-last rule. */
module Merkle {
  import opened Arith
  import opened MachineInts

  type Bytes = seq<byte>

  datatype ProofResult = Proven(proof: seq<Bytes>, root: Bytes) | IndexOutOfRange

  const DIGEST: nat := 32

  // ---------- reference definitions ----------

  function Padded(level: seq<Bytes>): seq<Bytes> {
    if |level| % 2 == 1 then level + [level[|level| - 1]] else level
  }

  /** The level above: digests of adjacent pairs, the last node doubled when there is an odd one. */
  function Above(h: Bytes -> Bytes, level: seq<Bytes>): seq<Bytes> {
    var even := Padded(level);
    seq(|even| / 2, i requires 0 <= i < |even| / 2 => h(even[2 * i] + even[2 * i + 1]))
  }

  function Root(h: Bytes -> Bytes, level: seq<Bytes>): Bytes
    decreases |level|
  {
    if level == [] then [] else if |level| == 1 then level[0] else Root(h, Above(h, level))
  }

  function Sibling(i: nat): nat {
    if i % 2 == 0 then i + 1 else i - 1
  }

  function Siblings(h: Bytes -> Bytes, level: seq<Bytes>, i: nat): seq<Bytes>
    requires i < |level|
    decreases |level|
  {
    if |level| == 1 then [] else [Padded(level)[Sibling(i)]] + Siblings(h, Above(h, level), i / 2)
  }

  /** Division by two that truncates toward zero. */
  function Half(i: int): (r: int)
    ensures if i >= 0 then 2 * r <= i <= 2 * r + 1 else 2 * r - 1 <= i <= 2 * r
  {
    if i < 0 then -(-i / 2) else i / 2
  }

  function Joined(node: Bytes, sibling: Bytes, i: int): Bytes {
    if i % 2 == 0 then node + sibling else sibling + node
  }

  function Climb(h: Bytes -> Bytes, node: Bytes, proof: seq<Bytes>, i: int): Bytes
    decreases |proof|
  {
    if proof == [] then node else Climb(h, h(Joined(node, proof[0], i)), proof[1..], Half(i))
  }

  function Depth(n: nat): nat {
    if n <= 1 then 0 else 1 + Depth((n + 1) / 2)
  }

  // ---------- the program ----------

  method PairUp(h: Bytes -> Bytes, level: seq<Bytes>) returns (next: seq<Bytes>)
    requires |level| > 1
    ensures next == Above(h, level)
  {
    var even := level;
    if |even| % 2 == 1 { even := even + [even[|even| - 1]]; }
    next := [];
    var i := 0;
    while i < |even|
      invariant 0 <= i <= |even| && i % 2 == 0 && |next| == i / 2
      invariant forall j :: 0 <= j < i / 2 ==> next[j] == h(even[2 * j] + even[2 * j + 1])
    {
      next := next + [h(even[i] + even[i + 1])];
      i := i + 2;
    }
  }

  method ComputeRoot(h: Bytes -> Bytes, leaves: seq<Bytes>) returns (root: Bytes)
    ensures root == Root(h, leaves)
    ensures leaves == [] ==> root == []
    ensures |leaves| == 1 ==> root == leaves[0]
  {
    if |leaves| == 0 { return []; }
    var level := leaves;
    while |level| > 1
      invariant |level| >= 1 && Root(h, level) == Root(h, leaves)
      decreases |level|
    {
      level := PairUp(h, level);
    }
    return level[0];
  }

  /** What is left of the proof of leaf index is the proof of node idx of this level. */
  ghost predicate Climbing(h: Bytes -> Bytes, leaves: seq<Bytes>, index: nat, level: seq<Bytes>, idx: nat,
      proof: seq<Bytes>) {
    index < |leaves| && idx < |level| && Root(h, level) == Root(h, leaves)
    && proof + Siblings(h, level, idx) == Siblings(h, leaves, index)
  }

  lemma ClimbLevel(h: Bytes -> Bytes, leaves: seq<Bytes>, index: nat, level: seq<Bytes>, idx: nat, proof: seq<Bytes>)
    requires Climbing(h, leaves, index, level, idx, proof) && |level| > 1
    ensures Sibling(idx) < |Padded(level)| && |Above(h, level)| < |level|
    ensures Climbing(h, leaves, index, Above(h, level), idx / 2, proof + [Padded(level)[Sibling(idx)]])
  {
    NodeAbove(h, level, idx);
    Appended(proof, Padded(level)[Sibling(idx)], Siblings(h, Above(h, level), idx / 2));
    hide Above, Padded, Sibling;
  }

  lemma Appended(s: seq<Bytes>, x: Bytes, t: seq<Bytes>)
    ensures s + ([x] + t) == (s + [x]) + t
  {
  }

  lemma ClimbDone(h: Bytes -> Bytes, leaves: seq<Bytes>, index: nat, level: seq<Bytes>, idx: nat, proof: seq<Bytes>)
    requires Climbing(h, leaves, index, level, idx, proof) && |level| <= 1
    ensures |level| == 1 && index < |leaves| && proof == Siblings(h, leaves, index) && level[0] == Root(h, leaves)
  {
    assert proof + [] == proof;
  }

  method ComputeProof(h: Bytes -> Bytes, leaves: seq<Bytes>, index: int) returns (r: ProofResult)
    ensures r.Proven? <==> 0 <= index < |leaves|
    ensures r.Proven? ==> r == Proven(Siblings(h, leaves, index), Root(h, leaves))
  {
    if index < 0 || index >= |leaves| { return IndexOutOfRange; }
    var level, idx: nat, proof := leaves, index, [];
    assert Climbing(h, leaves, index, level, idx, proof);
    hide Climbing, Root, Siblings, Above, Padded, Sibling;
    while |level| > 1
      invariant Climbing(h, leaves, index, level, idx, proof)
      decreases |level|
    {
      ClimbLevel(h, leaves, index, level, idx, proof);
      proof := proof + [Padded(level)[Sibling(idx)]];
      level := PairUp(h, level);
      idx := idx / 2;
    }
    ClimbDone(h, leaves, index, level, idx, proof);
    return Proven(proof, level[0]);
  }

  method VerifyProof(h: Bytes -> Bytes, leaf: Bytes, proof: seq<Bytes>, index: int,
      expectedRoot: Bytes) returns (ok: bool)
    ensures ok <==> Climb(h, leaf, proof, index) == expectedRoot
  {
    var hash, idx := leaf, index;
    for k := 0 to |proof|
      invariant Climb(h, hash, proof[k..], idx) == Climb(h, leaf, proof, index)
    {
      var combined := if idx % 2 == 0 then hash + proof[k] else proof[k] + hash;
      assert proof[k..][1..] == proof[k + 1..];
      hash := h(combined);
      idx := Half(idx);
    }
    if |hash| != |expectedRoot| { return false; }
    for j := 0 to |hash|
      invariant forall m :: 0 <= m < j ==> hash[m] == expectedRoot[m]
    {
      if hash[j] != expectedRoot[j] { return false; }
    }
    return true;
  }

  /** The node above a leaf is the digest of the leaf joined with its sibling. */
  lemma NodeAbove(h: Bytes -> Bytes, level: seq<Bytes>, i: nat)
    requires i < |level| && |level| > 1
    ensures |Above(h, level)| == (|level| + 1) / 2 && i / 2 < |Above(h, level)| < |level|
    ensures Sibling(i) < |Padded(level)|
    ensures Above(h, level)[i / 2] == h(Joined(level[i], Padded(level)[Sibling(i)], i))
    ensures Joined(level[i], Padded(level)[Sibling(i)], i) in PairsOf(level)
  {
    var even, k := Padded(level), i / 2;
    assert i == 2 * k || i == 2 * k + 1;
    assert even[i] == level[i];
  }

  // ---------- completeness ----------

  /** The computed proof of every leaf verifies against the root, and is as long as the tree is deep. */
  lemma {:induction false} ProofVerifies(h: Bytes -> Bytes, leaves: seq<Bytes>, i: nat)
    requires i < |leaves|
    ensures |Siblings(h, leaves, i)| == Depth(|leaves|)
    ensures Climb(h, leaves[i], Siblings(h, leaves, i), i) == Root(h, leaves)
    decreases |leaves|
  {
    if |leaves| > 1 {
      NodeAbove(h, leaves, i);
      ProofVerifies(h, Above(h, leaves), i / 2);
      hide Above, Padded, Joined, Sibling;
    }
  }

  /** The depth is the base-two logarithm of the number of leaves, rounded up. */
  lemma {:induction false} DepthIsCeilLog2(n: nat)
    requires n >= 1
    ensures n <= Pow2(Depth(n)) && (n > 1 ==> Pow2(Depth(n) - 1) < n)
  {
    if n > 1 { DepthIsCeilLog2((n + 1) / 2); }
  }

  // ---------- binding ----------

  /** The strings hashed to build the tree, and to check a proof. */
  ghost function TreeInputs(h: Bytes -> Bytes, level: seq<Bytes>): set<Bytes>
    decreases |level|
  {
    if |level| <= 1 then {} else PairsOf(level) + TreeInputs(h, Above(h, level))
  }

  ghost function PairsOf(level: seq<Bytes>): set<Bytes> {
    var even := Padded(level);
    set i | 0 <= i < |even| / 2 :: even[2 * i] + even[2 * i + 1]
  }

  ghost function PathInputs(h: Bytes -> Bytes, node: Bytes, proof: seq<Bytes>, i: int): set<Bytes>
    decreases |proof|
  {
    if proof == [] then {}
    else {Joined(node, proof[0], i)} + PathInputs(h, h(Joined(node, proof[0], i)), proof[1..], Half(i))
  }

  ghost predicate CollisionFree(h: Bytes -> Bytes, inputs: set<Bytes>) {
    forall x, y :: x in inputs && y in inputs && h(x) == h(y) ==> x == y
  }

  ghost predicate Digests(h: Bytes -> Bytes) {
    forall x :: |h(x)| == DIGEST
  }

  ghost predicate Sized(level: seq<Bytes>) {
    forall i :: 0 <= i < |level| ==> |level[i]| == DIGEST
  }

  lemma SplitJoin(a: Bytes, b: Bytes, c: Bytes, d: Bytes)
    requires a + b == c + d && (|a| == |c| || |b| == |d|)
    ensures a == c && b == d
  {
    assert |a| == |c|;
    assert a == (a + b)[..|a|] && b == (a + b)[|a|..];
  }

  lemma SizedAbove(h: Bytes -> Bytes, level: seq<Bytes>)
    requires Digests(h) && |level| > 1
    ensures Sized(Above(h, level)) && |Above(h, level)| == (|level| + 1) / 2 < |level|
  {
  }

  lemma JoinedBinds(a: Bytes, b: Bytes, c: Bytes, d: Bytes, i: int)
    requires Joined(a, b, i) == Joined(c, d, i) && |a| == |c|
    ensures a == c && b == d
  {
    if i % 2 == 0 { SplitJoin(a, b, c, d); } else { SplitJoin(b, a, d, c); }
  }

  /** A 32-byte leaf is accepted at index i of a list of 32-byte leaves, and the hash has no collision
      among the strings hashed. */
  ghost predicate Accepted(h: Bytes -> Bytes, leaves: seq<Bytes>, i: int, leaf: Bytes, proof: seq<Bytes>) {
    && Digests(h) && Sized(leaves) && leaves != [] && |leaf| == DIGEST
    && Climb(h, leaf, proof, i) == Root(h, leaves)
    && CollisionFree(h, TreeInputs(h, leaves) + PathInputs(h, leaf, proof, i))
  }

  lemma AcceptedAbove(h: Bytes -> Bytes, leaves: seq<Bytes>, i: int, leaf: Bytes, proof: seq<Bytes>)
    requires Accepted(h, leaves, i, leaf, proof) && |leaves| > 1 && |proof| > 0
    ensures Accepted(h, Above(h, leaves), Half(i), h(Joined(leaf, proof[0], i)), proof[1..])
    ensures |Above(h, leaves)| == (|leaves| + 1) / 2
  {
    SizedAbove(h, leaves);
    assert TreeInputs(h, Above(h, leaves)) <= TreeInputs(h, leaves);
    assert PathInputs(h, h(Joined(leaf, proof[0], i)), proof[1..], Half(i)) <= PathInputs(h, leaf, proof, i);
    hide Above, Padded, Joined, Sibling, PairsOf, TreeInputs, PathInputs, Half;
  }

  /** The string hashed for the first step of the proof is one hashed for the tree if the digests agree. */
  lemma FirstStep(h: Bytes -> Bytes, leaves: seq<Bytes>, i: int, leaf: Bytes, proof: seq<Bytes>, pair: Bytes)
    requires Accepted(h, leaves, i, leaf, proof) && |leaves| > 1 && |proof| > 0
    requires pair in PairsOf(leaves) && h(Joined(leaf, proof[0], i)) == h(pair)
    ensures Joined(leaf, proof[0], i) == pair
  {
    assert Joined(leaf, proof[0], i) in PathInputs(h, leaf, proof, i);
    assert pair in TreeInputs(h, leaves);
    hide Above, PairsOf, TreeInputs, PathInputs;
  }

  /** Equal digests one level up come from equal nodes and siblings. */
  lemma PairBinds(h: Bytes -> Bytes, leaves: seq<Bytes>, i: nat, leaf: Bytes, proof: seq<Bytes>)
    requires Accepted(h, leaves, i, leaf, proof) && i < |leaves| && |leaves| > 1 && |proof| > 0
    requires i / 2 < |Above(h, leaves)| && h(Joined(leaf, proof[0], i)) == Above(h, leaves)[i / 2]
    ensures leaf == leaves[i] && Siblings(h, leaves, i) == [proof[0]] + Siblings(h, Above(h, leaves), i / 2)
  {
    NodeAbove(h, leaves, i);
    var sibling := Padded(leaves)[Sibling(i)];
    FirstStep(h, leaves, i, leaf, proof, Joined(leaves[i], sibling, i));
    hide Above, Padded, Joined, Sibling, PairsOf, TreeInputs, PathInputs;
    JoinedBinds(leaf, proof[0], leaves[i], sibling, i);
  }

  /** A 32-byte leaf accepted at a position of the list with a proof as long as the tree is deep
      is the leaf at that position, and the proof is the computed one. */
  lemma {:induction false} ProofBinds(h: Bytes -> Bytes, leaves: seq<Bytes>, i: nat, leaf: Bytes, proof: seq<Bytes>)
    requires Accepted(h, leaves, i, leaf, proof) && i < |leaves| && |proof| == Depth(|leaves|)
    ensures leaf == leaves[i] && proof == Siblings(h, leaves, i)
    decreases |leaves|
  {
    if |leaves| > 1 {
      AcceptedAbove(h, leaves, i, leaf, proof);
      ProofBinds(h, Above(h, leaves), i / 2, h(Joined(leaf, proof[0], i)), proof[1..]);
      PairBinds(h, leaves, i, leaf, proof);
      hide *;
      assert proof == [proof[0]] + proof[1..];
    }
  }

  /** Equal roots of equally long lists of 32-byte leaves mean equal lists. */
  lemma {:induction false} RootBinds(h: Bytes -> Bytes, a: seq<Bytes>, b: seq<Bytes>)
    requires Digests(h) && Sized(a) && Sized(b) && |a| == |b|
    requires CollisionFree(h, TreeInputs(h, a) + TreeInputs(h, b))
    requires Root(h, a) == Root(h, b)
    ensures a == b
    decreases |a|
  {
    if |a| > 1 {
      SizedAbove(h, a);
      SizedAbove(h, b);
      hide Above, Padded, Joined, Sibling, PairsOf;
      RootBinds(h, Above(h, a), Above(h, b));
      forall i | 0 <= i < |a| ensures a[i] == b[i] {
        NodeAbove(h, a, i);
        NodeAbove(h, b, i);
        JoinedBinds(a[i], Padded(a)[Sibling(i)], b[i], Padded(b)[Sibling(i)], i);
      }
    }
  }

  // ---------- where binding ends ----------

  lemma AboveSplits(h: Bytes -> Bytes, a: seq<Bytes>, b: seq<Bytes>)
    requires |a| % 2 == 0 && |b| % 2 == 0
    ensures Above(h, a + b) == Above(h, a) + Above(h, b)
    ensures |Above(h, a)| == |a| / 2 && |Above(h, b)| == |b| / 2
  {
  }

  /** From the top: the root of two lists of one power of two is the digest of their roots, left before right. */
  lemma {:induction false} RootSplits(h: Bytes -> Bytes, a: seq<Bytes>, b: seq<Bytes>, k: nat)
    requires |a| == |b| == Pow2(k)
    ensures Root(h, a + b) == h(Root(h, a) + Root(h, b))
    decreases k
  {
    if k == 0 {
      assert Above(h, a + b) == [h(a[0] + b[0])];
    } else {
      AboveSplits(h, a, b);
      hide Above;
      RootSplits(h, Above(h, a), Above(h, b), k - 1);
    }
  }

  /** Lists of different lengths can share a root: repeating the last leaf of an odd list of three
      or more changes nothing. */
  lemma RepeatedLastLeafSharesRoot(h: Bytes -> Bytes, leaves: seq<Bytes>)
    requires |leaves| >= 3 && |leaves| % 2 == 1
    ensures Root(h, leaves + [leaves[|leaves| - 1]]) == Root(h, leaves)
  {
    assert Padded(leaves + [leaves[|leaves| - 1]]) == Padded(leaves);
  }

  /** A proof one shorter than the tree is deep is accepted for an inner node in place of a leaf. */
  lemma ShorterProofAcceptsInnerNode(h: Bytes -> Bytes, leaves: seq<Bytes>, k: nat)
    requires |leaves| > 1 && k < |Above(h, leaves)|
    ensures var proof := Siblings(h, Above(h, leaves), k);
      |proof| == Depth(|leaves|) - 1 && Climb(h, Above(h, leaves)[k], proof, k) == Root(h, leaves)
  {
    ProofVerifies(h, Above(h, leaves), k);
    NodeAbove(h, leaves, 0);
    hide Above, Climb, Siblings;
  }
}
