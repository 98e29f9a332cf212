/** The tree of blocks that block ids describe.  A block id is the hex text of a
    block hash and fixes the block's parent and height; "" stands for "no parent". */
module BlockTree {
  type BlockId = string

  const NONE: BlockId := ""

  datatype Tree = Tree(parent: BlockId -> BlockId, height: BlockId -> int) {
    /** A child is exactly one higher than its parent. */
    ghost predicate WellFormed() {
      forall b :: b != NONE && parent(b) != NONE ==> height(b) == height(parent(b)) + 1
    }
  }

  /** The block k parent links above b, or NONE once the links run out. */
  ghost function Up(t: Tree, b: BlockId, k: nat): BlockId
    decreases k
  {
    if k == 0 || b == NONE then b else Up(t, t.parent(b), k - 1)
  }

  /** b is a, or has a as an ancestor. */
  ghost predicate Descends(t: Tree, b: BlockId, a: BlockId) {
    a != NONE && exists k: nat :: Up(t, b, k) == a
  }

  /** a and b lie on one branch. */
  ghost predicate SameBranch(t: Tree, a: BlockId, b: BlockId) {
    Descends(t, a, b) || Descends(t, b, a)
  }

  lemma {:induction false} UpAdd(t: Tree, b: BlockId, j: nat, k: nat)
    ensures Up(t, Up(t, b, j), k) == Up(t, b, j + k)
    decreases j
  {
    if j == 0 || b == NONE {
      if b == NONE { UpNone(t, j); UpNone(t, j + k); UpNone(t, k); }
    } else {
      UpAdd(t, t.parent(b), j - 1, k);
    }
  }

  lemma UpNone(t: Tree, k: nat)
    ensures Up(t, NONE, k) == NONE
  {
  }

  lemma {:induction false} UpHeight(t: Tree, b: BlockId, k: nat)
    requires t.WellFormed()
    requires Up(t, b, k) != NONE
    ensures b != NONE && t.height(Up(t, b, k)) == t.height(b) - k
    decreases k
  {
    if k > 0 {
      if b == NONE { UpNone(t, k); }
      UpHeight(t, t.parent(b), k - 1);
    }
  }

  lemma DescendsSelf(t: Tree, b: BlockId)
    requires b != NONE
    ensures Descends(t, b, b)
  {
    assert Up(t, b, 0) == b;
  }

  lemma DescendsTrans(t: Tree, c: BlockId, b: BlockId, a: BlockId)
    requires Descends(t, c, b) && Descends(t, b, a)
    ensures Descends(t, c, a)
  {
    var j: nat :| Up(t, c, j) == b;
    var k: nat :| Up(t, b, k) == a;
    UpAdd(t, c, j, k);
  }

  lemma DescendsFromParent(t: Tree, b: BlockId, a: BlockId)
    requires b != NONE && Descends(t, t.parent(b), a)
    ensures Descends(t, b, a)
  {
    var k: nat :| Up(t, t.parent(b), k) == a;
    assert Up(t, b, k + 1) == a;
  }

  lemma DescendsStep(t: Tree, b: BlockId, a: BlockId)
    requires Descends(t, b, a) && b != a
    ensures b != NONE && t.parent(b) != NONE && Descends(t, t.parent(b), a)
  {
    var k: nat :| Up(t, b, k) == a;
    if b == NONE { UpNone(t, k); }
    assert k > 0 && Up(t, t.parent(b), k - 1) == a;
    UpNone(t, k - 1);
  }

  lemma DescendsHigher(t: Tree, b: BlockId, a: BlockId)
    requires t.WellFormed() && Descends(t, b, a)
    ensures b != NONE && (b == a || t.height(b) > t.height(a))
  {
    var k: nat :| Up(t, b, k) == a;
    UpHeight(t, b, k);
  }

  /** Two ancestors of one block are on one branch. */
  lemma AncestorsComparable(t: Tree, x: BlockId, a: BlockId, b: BlockId)
    requires Descends(t, x, a) && Descends(t, x, b)
    ensures SameBranch(t, a, b)
  {
    var j: nat :| Up(t, x, j) == a;
    var k: nat :| Up(t, x, k) == b;
    if j <= k {
      UpAdd(t, x, j, k - j);
    } else {
      UpAdd(t, x, k, j - k);
    }
  }

  /** c is a certified child of b and g a certified child of c. */
  ghost predicate ChainAt(t: Tree, certified: set<BlockId>, b: BlockId, c: BlockId, g: BlockId) {
    c in certified && g in certified && t.parent(c) == b && t.parent(g) == c
  }

  ghost predicate TwoBelow(t: Tree, certified: set<BlockId>, b: BlockId) {
    exists c, g :: ChainAt(t, certified, b, c, g)
  }

  /** The three-chain rule: the certified blocks with a certified child and grandchild. */
  ghost function Heads(t: Tree, certified: set<BlockId>): set<BlockId> {
    set b | b in certified && TwoBelow(t, certified, b)
  }
}
