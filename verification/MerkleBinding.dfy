/** Exactly which lists and proofs a Merkle root binds. */
module MerkleBinding {
  import opened BigEndian
  import opened MachineInts
  import opened Merkle

  // ---------- lists of one repeated node ----------

  function Copies(x: Bytes, n: nat): seq<Bytes> {
    seq(n, _ => x)
  }

  /** The node k levels above x when every node is joined with itself. */
  function Doubled(h: Bytes -> Bytes, x: Bytes, k: nat): Bytes
    decreases k
  {
    if k == 0 then x else Doubled(h, h(x + x), k - 1)
  }

  ghost function Doublings(h: Bytes -> Bytes, x: Bytes, k: nat): set<Bytes>
    decreases k
  {
    if k == 0 then {} else {x + x} + Doublings(h, h(x + x), k - 1)
  }

  lemma {:induction false} DoubledAdd(h: Bytes -> Bytes, x: Bytes, j: nat, k: nat)
    ensures Doubled(h, x, j + k) == Doubled(h, Doubled(h, x, j), k)
    ensures Doublings(h, Doubled(h, x, j), k) <= Doublings(h, x, j + k)
    decreases j
  {
    if j > 0 { DoubledAdd(h, h(x + x), j - 1, k); }
  }

  lemma {:induction false} DoubledSized(h: Bytes -> Bytes, x: Bytes, k: nat)
    requires Digests(h) && |x| == DIGEST
    ensures |Doubled(h, x, k)| == DIGEST
    decreases k
  {
    if k > 0 { DoubledSized(h, h(x + x), k - 1); }
  }

  lemma CopiesAbove(h: Bytes -> Bytes, x: Bytes, n: nat)
    requires n > 1
    ensures Above(h, Copies(x, n)) == Copies(h(x + x), (n + 1) / 2) && PairsOf(Copies(x, n)) == {x + x}
  {
    var even := Padded(Copies(x, n));
    assert forall i :: 0 <= i < |even| ==> even[i] == x;
    assert even[2 * 0] + even[2 * 0 + 1] in PairsOf(Copies(x, n));
  }

  lemma {:induction false} CopiesRoot(h: Bytes -> Bytes, x: Bytes, n: nat)
    requires n >= 1
    ensures Root(h, Copies(x, n)) == Doubled(h, x, Depth(n))
    ensures TreeInputs(h, Copies(x, n)) == Doublings(h, x, Depth(n))
    decreases n
  {
    if n > 1 {
      CopiesAbove(h, x, n);
      CopiesRoot(h, h(x + x), (n + 1) / 2);
      hide Above, PairsOf, Copies;
    }
  }

  // ---------- a set on which joining a node with itself never collides ----------

  ghost predicate Closed(h: Bytes -> Bytes, nodes: set<Bytes>) {
    nodes != {} && forall x :: x in nodes ==> |x| == DIGEST && h(x + x) in nodes
  }

  ghost predicate OneToOne(h: Bytes -> Bytes, nodes: set<Bytes>) {
    forall x, y :: x in nodes && y in nodes && h(x + x) == h(y + y) ==> x == y
  }

  ghost function Image(h: Bytes -> Bytes, nodes: set<Bytes>): set<Bytes> {
    set x | x in nodes :: h(x + x)
  }

  lemma {:induction false} ImageSize(h: Bytes -> Bytes, nodes: set<Bytes>)
    ensures |Image(h, nodes)| <= |nodes|
  {
    if nodes != {} {
      var x :| x in nodes;
      ImageSize(h, nodes - {x});
      assert Image(h, nodes) == Image(h, nodes - {x}) + {h(x + x)};
    } else {
      assert Image(h, nodes) == {};
    }
  }

  lemma ImageSmaller(h: Bytes -> Bytes, nodes: set<Bytes>, x: Bytes, y: Bytes)
    requires Closed(h, nodes) && x in nodes && y in nodes && x != y && h(x + x) == h(y + y)
    ensures Closed(h, Image(h, nodes)) && |Image(h, nodes)| < |nodes|
  {
    assert Image(h, nodes) == Image(h, nodes - {x}) by {
      assert y in nodes - {x};
      forall z | z in Image(h, nodes) ensures z in Image(h, nodes - {x}) {
        var u :| u in nodes && z == h(u + u);
        assert h(u + u) == h((if u == x then y else u) + (if u == x then y else u));
      }
    }
    ImageSize(h, nodes - {x});
    assert h(x + x) in Image(h, nodes);
  }

  /** Every finite closed set has a closed part on which doubling is one to one. */
  lemma {:induction false} Core(h: Bytes -> Bytes, nodes: set<Bytes>) returns (core: set<Bytes>)
    requires Closed(h, nodes)
    ensures Closed(h, core) && OneToOne(h, core)
    decreases |nodes|
  {
    if x, y :| x in nodes && y in nodes && x != y && h(x + x) == h(y + y) {
      ImageSmaller(h, nodes, x, y);
      hide Image, Closed;
      core := Core(h, Image(h, nodes));
    } else {
      core := nodes;
    }
  }

  function Snoc(s: Bytes, b: byte): Bytes {
    s + [b]
  }

  ghost function Strings(k: nat): set<Bytes> {
    if k == 0 then {[]} else set s, b: byte | s in Strings(k - 1) :: Snoc(s, b)
  }

  lemma {:induction false} StringsComplete(s: Bytes)
    ensures s in Strings(|s|)
  {
    if s != [] {
      StringsComplete(s[..|s| - 1]);
      assert s == Snoc(s[..|s| - 1], s[|s| - 1]);
    }
  }

  lemma {:induction false} StringsSized(s: Bytes, k: nat)
    requires s in Strings(k)
    ensures |s| == k
    decreases k
  {
    if k > 0 {
      var r, b: byte :| r in Strings(k - 1) && s == Snoc(r, b);
      StringsSized(r, k - 1);
    }
  }

  lemma StringsClosed(h: Bytes -> Bytes, k: nat)
    requires Digests(h) && k == DIGEST
    ensures Closed(h, Strings(k))
  {
    hide Strings;
    forall x | x in Strings(k) ensures |x| == DIGEST && h(x + x) in Strings(k) {
      StringsSized(x, k);
      StringsComplete(h(x + x));
    }
    StringsComplete(h([]));
    assert h([]) in Strings(k);
  }

  /** For every hash there are digests that double without collision for ever. */
  lemma CoreOfHash(h: Bytes -> Bytes) returns (core: set<Bytes>)
    requires Digests(h)
    ensures Closed(h, core) && OneToOne(h, core)
  {
    hide *;
    StringsClosed(h, DIGEST);
    core := Core(h, Strings(DIGEST));
  }

  lemma {:induction false} CoreDoublings(h: Bytes -> Bytes, core: set<Bytes>, x: Bytes, k: nat)
    requires Closed(h, core) && x in core
    ensures Doubled(h, x, k) in core
    ensures forall s :: s in Doublings(h, x, k) ==> exists y :: y in core && s == y + y
    decreases k
  {
    if k > 0 { CoreDoublings(h, core, h(x + x), k - 1); }
  }

  lemma CoreCollisionFree(h: Bytes -> Bytes, core: set<Bytes>, x: Bytes, k: nat)
    requires Closed(h, core) && OneToOne(h, core) && x in core
    ensures CollisionFree(h, Doublings(h, x, k))
  {
    CoreDoublings(h, core, x, k);
    forall s, s' | s in Doublings(h, x, k) && s' in Doublings(h, x, k) && h(s) == h(s') ensures s == s' {
      var y :| y in core && s == y + y;
      var y' :| y' in core && s' == y' + y';
    }
  }

  // ---------- roots ----------

  /** Two lists of 32-byte leaves share a root, and no two of the strings hashed for it collide. */
  ghost predicate SharedRoot(h: Bytes -> Bytes, a: seq<Bytes>, b: seq<Bytes>) {
    Sized(a) && Sized(b) && Root(h, a) == Root(h, b) && CollisionFree(h, TreeInputs(h, a) + TreeInputs(h, b))
  }

  /** Roots tell lists of lengths m and n apart. */
  ghost predicate RootsBind(h: Bytes -> Bytes, m: nat, n: nat) {
    forall a, b :: |a| == m && |b| == n && SharedRoot(h, a, b) ==> a == b
  }

  lemma SharedRootBy(h: Bytes -> Bytes, a: seq<Bytes>, b: seq<Bytes>, inputs: set<Bytes>)
    requires Sized(a) && Sized(b) && Root(h, a) == Root(h, b)
    requires TreeInputs(h, a) <= inputs && TreeInputs(h, b) <= inputs && CollisionFree(h, inputs)
    ensures SharedRoot(h, a, b)
  {
    hide Root, TreeInputs, Sized;
  }

  lemma CopiesSized(x: Bytes, n: nat)
    requires |x| == DIGEST
    ensures Sized(Copies(x, n)) && |Copies(x, n)| == n
  {
  }

  /** The copies of one node against the copies of a node above it. */
  lemma CopiesShareRoot(h: Bytes -> Bytes, x: Bytes, m: nat, n: nat)
    requires Digests(h) && |x| == DIGEST && 1 <= m && 1 <= n && Depth(m) <= Depth(n)
    requires CollisionFree(h, Doublings(h, x, Depth(n)))
    ensures SharedRoot(h, Copies(Doubled(h, x, Depth(n) - Depth(m)), m), Copies(x, n))
  {
    hide *;
    var k := Depth(n) - Depth(m);
    var y := Doubled(h, x, k);
    DoubledSized(h, x, k);
    DoubledAdd(h, x, k, Depth(m));
    CopiesRoot(h, y, m);
    CopiesRoot(h, x, n);
    CopiesSized(y, m);
    CopiesSized(x, n);
    SharedRootBy(h, Copies(y, m), Copies(x, n), Doublings(h, x, Depth(n)));
  }

  /** Whatever the hash, there are lists of any two lengths with one root. */
  lemma SomeShareRoot(h: Bytes -> Bytes, m: nat, n: nat) returns (a: seq<Bytes>, b: seq<Bytes>)
    requires Digests(h) && 1 <= m && 1 <= n
    ensures |a| == m && |b| == n && SharedRoot(h, a, b)
    decreases if Depth(m) > Depth(n) then 1 else 0
  {
    if Depth(m) > Depth(n) {
      b, a := SomeShareRoot(h, n, m);
      SharedRootSymmetric(h, b, a);
    } else {
      var core := CoreOfHash(h);
      var x :| x in core && |x| == DIGEST;
      CoreCollisionFree(h, core, x, Depth(n));
      CopiesShareRoot(h, x, m, n);
      a, b := Copies(Doubled(h, x, Depth(n) - Depth(m)), m), Copies(x, n);
    }
  }

  /** Whatever the hash, roots bind lists of given lengths exactly when the lengths are the same. */
  lemma RootsBindIff(h: Bytes -> Bytes, m: nat, n: nat)
    requires Digests(h) && 1 <= m && 1 <= n
    ensures RootsBind(h, m, n) <==> m == n
  {
    if m == n {
      forall a, b | |a| == m && |b| == n && SharedRoot(h, a, b) ensures a == b { RootBinds(h, a, b); }
    } else {
      var a, b := SomeShareRoot(h, m, n);
      hide SharedRoot;
    }
  }

  lemma SharedRootSymmetric(h: Bytes -> Bytes, a: seq<Bytes>, b: seq<Bytes>)
    requires SharedRoot(h, a, b)
    ensures SharedRoot(h, b, a)
  {
    assert TreeInputs(h, a) + TreeInputs(h, b) == TreeInputs(h, b) + TreeInputs(h, a);
  }

  // ---------- proofs of any length, at any index ----------

  /** The position among n nodes that an index leads to; past the end the last node counts for its copies. */
  function Place(n: nat, i: int): (p: nat)
    requires n >= 1
    ensures p < n
    decreases n
  {
    if n == 1 then 0
    else
      var p := 2 * Place((n + 1) / 2, Half(i)) + i % 2;
      if p >= n then n - 1 else p
  }

  lemma {:induction false} PlaceOfIndex(n: nat, i: nat)
    requires i < n
    ensures Place(n, i) == i
    decreases n
  {
    if n > 1 { PlaceOfIndex((n + 1) / 2, i / 2); }
  }

  lemma PairNames(h: Bytes -> Bytes, leaves: seq<Bytes>, i: int, leaf: Bytes, proof: seq<Bytes>, q: nat)
    requires Accepted(h, leaves, i, leaf, proof) && |leaves| > 1 && |proof| > 0 && q < |Above(h, leaves)|
    requires h(Joined(leaf, proof[0], i)) == Above(h, leaves)[q]
    ensures var p := 2 * q + i % 2; leaf == leaves[if p >= |leaves| then |leaves| - 1 else p]
  {
    var even := Padded(leaves);
    assert even[2 * q] + even[2 * q + 1] in PairsOf(leaves);
    FirstStep(h, leaves, i, leaf, proof, even[2 * q] + even[2 * q + 1]);
    hide Root, Climb, TreeInputs, PathInputs, PairsOf, Above;
    if i % 2 == 0 {
      SplitJoin(leaf, proof[0], even[2 * q], even[2 * q + 1]);
    } else {
      SplitJoin(proof[0], leaf, even[2 * q], even[2 * q + 1]);
    }
  }

  lemma {:induction false} FullProofNames(h: Bytes -> Bytes, leaves: seq<Bytes>, i: int, leaf: Bytes, proof: seq<Bytes>)
    requires Accepted(h, leaves, i, leaf, proof) && |proof| == Depth(|leaves|)
    ensures leaf == leaves[Place(|leaves|, i)]
    decreases |leaves|
  {
    if |leaves| > 1 {
      DepthStep(|leaves|);
      PlaceStep(|leaves|, i);
      hide *;
      AcceptedAbove(h, leaves, i, leaf, proof);
      FullProofNames(h, Above(h, leaves), Half(i), h(Joined(leaf, proof[0], i)), proof[1..]);
      PairNames(h, leaves, i, leaf, proof, Place((|leaves| + 1) / 2, Half(i)));
    } else {
      OnlyLeaf(h, leaves, i, leaf, proof);
    }
  }

  lemma DepthStep(n: nat)
    requires n > 1
    ensures Depth(n) == 1 + Depth((n + 1) / 2)
  {
  }

  lemma PlaceStep(n: nat, i: int)
    requires n > 1
    ensures var p := 2 * Place((n + 1) / 2, Half(i)) + i % 2; Place(n, i) == if p >= n then n - 1 else p
  {
    hide Half;
  }

  lemma OnlyLeaf(h: Bytes -> Bytes, leaves: seq<Bytes>, i: int, leaf: Bytes, proof: seq<Bytes>)
    requires Accepted(h, leaves, i, leaf, proof) && |leaves| == 1 && |proof| == Depth(1)
    ensures leaf == leaves[0] && Place(1, i) == 0
  {
    hide TreeInputs, PathInputs, CollisionFree, Sized, Digests;
  }

  /** The nodes k levels above the leaves. */
  function Level(h: Bytes -> Bytes, leaves: seq<Bytes>, k: nat): seq<Bytes>
    decreases k
  {
    if k == 0 then leaves else Level(h, Above(h, leaves), k - 1)
  }

  lemma AboveIsTree(h: Bytes -> Bytes, leaves: seq<Bytes>)
    requires Digests(h) && Sized(leaves) && Depth(|leaves|) >= 1
    ensures var above := Above(h, leaves);
      above != [] && Sized(above) && Root(h, above) == Root(h, leaves) && Depth(|above|) == Depth(|leaves|) - 1
      && TreeInputs(h, above) <= TreeInputs(h, leaves)
  {
    SizedAbove(h, leaves);
    hide Above, PairsOf, Sized;
  }

  lemma {:induction false} LevelIsTree(h: Bytes -> Bytes, leaves: seq<Bytes>, k: nat)
    requires Digests(h) && Sized(leaves) && leaves != [] && k <= Depth(|leaves|)
    ensures var level := Level(h, leaves, k);
      level != [] && Sized(level) && Root(h, level) == Root(h, leaves) && Depth(|level|) == Depth(|leaves|) - k
      && TreeInputs(h, level) <= TreeInputs(h, leaves)
    decreases k
  {
    hide Above, Sized, Root, TreeInputs, Depth, Digests;
    if k > 0 {
      AboveIsTree(h, leaves);
      LevelIsTree(h, Above(h, leaves), k - 1);
    }
  }

  lemma AcceptedOfTree(h: Bytes -> Bytes, leaves: seq<Bytes>, i: int, leaf: Bytes, proof: seq<Bytes>)
    requires Accepted(h, leaves, i, leaf, proof)
    ensures Digests(h) && Sized(leaves) && leaves != []
  {
  }

  lemma AcceptedBy(h: Bytes -> Bytes, leaves: seq<Bytes>, level: seq<Bytes>, i: int, leaf: Bytes, proof: seq<Bytes>)
    requires Accepted(h, leaves, i, leaf, proof)
    requires level != [] && Sized(level) && Root(h, level) == Root(h, leaves)
    requires TreeInputs(h, level) <= TreeInputs(h, leaves)
    ensures Accepted(h, level, i, leaf, proof)
  {
    hide Root, TreeInputs, PathInputs, Climb, Sized, Digests;
  }

  /** An accepted proof no longer than the tree is deep names the node at that many levels below the root. */
  lemma ShortProofNames(h: Bytes -> Bytes, leaves: seq<Bytes>, i: int, leaf: Bytes, proof: seq<Bytes>)
    requires Accepted(h, leaves, i, leaf, proof) && |proof| <= Depth(|leaves|)
    ensures var level := Level(h, leaves, Depth(|leaves|) - |proof|);
      level != [] && leaf == level[Place(|level|, i)]
  {
    hide *;
    var level := Level(h, leaves, Depth(|leaves|) - |proof|);
    AcceptedOfTree(h, leaves, i, leaf, proof);
    LevelIsTree(h, leaves, Depth(|leaves|) - |proof|);
    AcceptedBy(h, leaves, level, i, leaf, proof);
    FullProofNames(h, level, i, leaf, proof);
  }

  function Halves(i: int, k: nat): int
    decreases k
  {
    if k == 0 then i else Halves(Half(i), k - 1)
  }

  lemma {:induction false} ClimbAdd(h: Bytes -> Bytes, x: Bytes, proof: seq<Bytes>, i: int, k: nat)
    requires k <= |proof|
    ensures var y := Climb(h, x, proof[..k], i);
      Climb(h, x, proof, i) == Climb(h, y, proof[k..], Halves(i, k))
      && PathInputs(h, y, proof[k..], Halves(i, k)) <= PathInputs(h, x, proof, i)
      && (Digests(h) && |x| == DIGEST ==> |y| == DIGEST)
    decreases k
  {
    if k > 0 {
      ClimbAdd(h, h(Joined(x, proof[0], i)), proof[1..], Half(i), k - 1);
      assert proof[..k][1..] == proof[1..][..k - 1] && proof[k..] == proof[1..][k - 1..];
      hide Joined, Half;
    } else {
      assert proof[..0] == [] && proof[0..] == proof;
    }
  }

  /** An accepted proof longer than the tree is deep climbs to a leaf first. */
  lemma LongProofNames(h: Bytes -> Bytes, leaves: seq<Bytes>, i: int, leaf: Bytes, proof: seq<Bytes>)
    requires Accepted(h, leaves, i, leaf, proof) && |proof| >= Depth(|leaves|)
    ensures var k := |proof| - Depth(|leaves|);
      Climb(h, leaf, proof[..k], i) == leaves[Place(|leaves|, Halves(i, k))]
  {
    var k := |proof| - Depth(|leaves|);
    ClimbAdd(h, leaf, proof, i, k);
    hide Root, TreeInputs, PathInputs, Climb, Sized, Digests, Halves, Depth;
    FullProofNames(h, leaves, Halves(i, k), Climb(h, leaf, proof[..k], i), proof[k..]);
  }

  // ---------- which proof lengths bind leaves ----------

  /** For lists of n leaves, an accepted proof of this length shows the leaf at its index. */
  ghost predicate ProofsBind(n: nat, length: nat) {
    forall h: Bytes -> Bytes, leaves, i: nat, leaf, proof ::
      Accepted(h, leaves, i, leaf, proof) && |leaves| == n && i < n && |proof| == length ==> leaf == leaves[i]
  }

  /** A hash that counts: the digest of a digest joined with itself is the next number. */
  function Count(s: Bytes): (r: Bytes)
    ensures |r| == DIGEST
  {
    if |s| >= DIGEST then Written(Value(s[..DIGEST]) + 1, DIGEST) else Written(0, DIGEST)
  }

  function Number(j: nat): (r: Bytes)
    ensures |r| == DIGEST
  {
    Written(j, DIGEST)
  }

  lemma CountNext(j: nat)
    requires j < Pow256(DIGEST)
    ensures Count(Number(j) + Number(j)) == Number(j + 1) && Value(Number(j)) == j
  {
    WrittenValue(j, DIGEST);
    hide Written, Value, Pow256;
    assert (Number(j) + Number(j))[..DIGEST] == Number(j);
  }

  predicate Twice(s: Bytes, j: nat) {
    s == Number(j) + Number(j)
  }

  lemma {:induction false} CountDoubled(a: nat, k: nat)
    requires a + k < Pow256(DIGEST)
    ensures Doubled(Count, Number(a), k) == Number(a + k)
    ensures forall s :: s in Doublings(Count, Number(a), k) ==> exists j: nat :: a <= j < a + k && Twice(s, j)
    decreases k
  {
    hide Count, Number, Pow256;
    if k > 0 {
      CountNext(a);
      CountDoubled(a + 1, k - 1);
      assert Twice(Number(a) + Number(a), a);
    }
  }

  lemma CountCollisionFree(k: nat)
    requires k < Pow256(DIGEST)
    ensures CollisionFree(Count, Doublings(Count, Number(0), k))
  {
    hide *;
    CountDoubled(0, k);
    var inputs := Doublings(Count, Number(0), k);
    forall s, s' | s in inputs && s' in inputs && Count(s) == Count(s') ensures s == s' {
      var j: nat :| j < k && Twice(s, j);
      var j': nat :| j' < k && Twice(s', j');
      CountNext(j);
      CountNext(j');
      CountNext(j + 1);
      CountNext(j' + 1);
      TwiceIs(s, j);
      TwiceIs(s', j');
    }
    FreeOfCollisions(Count, inputs);
  }

  lemma TwiceIs(s: Bytes, j: nat)
    requires Twice(s, j)
    ensures s == Number(j) + Number(j)
  {
    hide Number;
  }

  lemma FreeOfCollisions(h: Bytes -> Bytes, inputs: set<Bytes>)
    requires forall s, s' :: s in inputs && s' in inputs && h(s) == h(s') ==> s == s'
    ensures CollisionFree(h, inputs)
  {
  }

  /** The proof that joins a node with itself at every step. */
  function SelfProof(h: Bytes -> Bytes, x: Bytes, length: nat): (proof: seq<Bytes>)
    ensures |proof| == length
    decreases length
  {
    if length == 0 then [] else [x] + SelfProof(h, h(x + x), length - 1)
  }

  lemma {:induction false} SelfProofClimbs(h: Bytes -> Bytes, x: Bytes, length: nat)
    ensures Climb(h, x, SelfProof(h, x, length), 0) == Doubled(h, x, length)
    ensures PathInputs(h, x, SelfProof(h, x, length), 0) == Doublings(h, x, length)
    decreases length
  {
    if length > 0 { SelfProofClimbs(h, h(x + x), length - 1); }
  }

  /** A counterexample for any other length: copies of one number against a number below or above. */
  lemma OtherLengthsFail(n: nat, length: nat)
    requires n >= 1 && Depth(n) < Pow256(DIGEST) && length < Pow256(DIGEST) && length != Depth(n)
    ensures !ProofsBind(n, length)
  {
    var depth := Depth(n);
    var a, b := if length < depth then depth - length else 0, if length < depth then 0 else length - depth;
    var leaf, leaves := Number(a), Copies(Number(b), n);
    var proof := SelfProof(Count, leaf, length);
    assert leaf != leaves[0] by { NumbersDiffer(a, b); }
    assert Accepted(Count, leaves, 0, leaf, proof) by { NumbersAccepted(n, length, a, b); }
    hide *;
    ProofsBindFails(Count, leaves, leaf, proof, n, length);
  }

  lemma ProofsBindFails(h: Bytes -> Bytes, leaves: seq<Bytes>, leaf: Bytes, proof: seq<Bytes>, n: nat, length: nat)
    requires Accepted(h, leaves, 0, leaf, proof) && |leaves| == n >= 1 && |proof| == length && leaf != leaves[0]
    ensures !ProofsBind(n, length)
  {
    hide Accepted;
  }

  lemma NumbersDiffer(a: nat, b: nat)
    requires a != b && a < Pow256(DIGEST) && b < Pow256(DIGEST)
    ensures Number(a) != Number(b)
  {
    WrittenValue(a, DIGEST);
    WrittenValue(b, DIGEST);
    hide Pow256, Written, Value;
  }

  lemma NumbersAccepted(n: nat, length: nat, a: nat, b: nat)
    requires n >= 1 && a + length == b + Depth(n) < Pow256(DIGEST)
    ensures Accepted(Count, Copies(Number(b), n), 0, Number(a), SelfProof(Count, Number(a), length))
  {
    hide *;
    CountDoubled(a, length);
    CountDoubled(b, Depth(n));
    CopiesRoot(Count, Number(b), n);
    CopiesSized(Number(b), n);
    SelfProofClimbs(Count, Number(a), length);
    CountInputs(a, length);
    CountInputs(b, Depth(n));
    CountCollisionFree(a + length);
    CountDigests();
    AcceptedIntro(Count, Copies(Number(b), n), Number(a), SelfProof(Count, Number(a), length),
                  Doublings(Count, Number(0), a + length));
  }

  /** The numbers from a on are reached by doubling from 0. */
  lemma CountInputs(a: nat, k: nat)
    requires a + k < Pow256(DIGEST)
    ensures Doublings(Count, Number(a), k) <= Doublings(Count, Number(0), a + k)
  {
    CountDoubled(0, a);
    DoubledAdd(Count, Number(0), a, k);
    hide *;
  }

  lemma CountDigests()
    ensures Digests(Count)
  {
  }

  lemma AcceptedIntro(h: Bytes -> Bytes, leaves: seq<Bytes>, leaf: Bytes, proof: seq<Bytes>, inputs: set<Bytes>)
    requires Digests(h) && Sized(leaves) && leaves != [] && |leaf| == DIGEST
    requires Climb(h, leaf, proof, 0) == Root(h, leaves)
    requires TreeInputs(h, leaves) <= inputs && PathInputs(h, leaf, proof, 0) <= inputs && CollisionFree(h, inputs)
    ensures Accepted(h, leaves, 0, leaf, proof)
  {
    hide Root, TreeInputs, PathInputs, Climb, Sized, Digests;
  }

  /** Proofs bind the leaves of all lists of n exactly when they are as long as the tree is deep.  Depths and
      lengths are below the number of digests, as every int of the source is. */
  lemma ProofsBindIff(n: nat, length: nat)
    requires n >= 1 && Depth(n) < Pow256(DIGEST) && length < Pow256(DIGEST)
    ensures ProofsBind(n, length) <==> length == Depth(n)
  {
    if length == Depth(n) {
      forall h: Bytes -> Bytes, leaves, i: nat, leaf, proof |
        Accepted(h, leaves, i, leaf, proof) && |leaves| == n && i < n && |proof| == length
        ensures leaf == leaves[i] {
        ProofBinds(h, leaves, i, leaf, proof);
      }
    } else {
      OtherLengthsFail(n, length);
    }
  }
}
