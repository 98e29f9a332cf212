/** The voting rule of one validator that stores certificates parents first and votes for a
    block only after storing its parent's certificate. */
module L2Voting {
  import opened BlockTree
  import opened L2State
  import opened L2Invariants
  import opened L2Commits

  /** The event makes this validator cast a vote for b. */
  ghost predicate Casts(s: L2State, e: Event, b: BlockId) {
    || (e.MarkVote? && e.block == b && b !in s.sentVote && SafeToVote(s, e.parent))
    || (e.RetryVote? && e.block == b)
  }

  ghost predicate VotesAfterParent(t: Tree, s: L2State, e: Event) {
    forall b :: Casts(s, e, b) && t.parent(b) != NONE ==> t.parent(b) in s.qcs
  }

  /** No stored certificate lies strictly above the lock. */
  ghost predicate LockIsTop(t: Tree, certified: set<BlockId>, lock: BlockId) {
    forall b :: b in certified && Descends(t, b, lock) ==> b == lock
  }

  ghost predicate CastBelowLock(t: Tree, cast: set<BlockId>, lock: BlockId) {
    forall x :: x in cast && t.parent(x) != NONE ==> Descends(t, lock, t.parent(x))
  }

  ghost predicate LockRule(t: Tree, s: L2State) {
    && ParentClosed(t, s.qcs.Keys)
    && LockIsTop(t, s.qcs.Keys, s.lockedBlk)
    && CastBelowLock(t, s.cast, s.lockedBlk)
  }

  /** An honest validator that casts a vote for a block with a parent is locked exactly on that parent. */
  lemma VoterLockedOnParent(cfg: Config, t: Tree, s: L2State, e: Event, b: BlockId)
    requires Basic(cfg, s) && Truth(t, s) && LockRule(t, s)
    requires Legal(cfg, s, e) && Told(t, e) && VotesAfterParent(t, s, e)
    requires Casts(s, e, b) && t.parent(b) != NONE
    ensures s.lockedBlk == t.parent(b)
  {
    var p := t.parent(b);
    assert SafeToVote(s, p);
    if s.lockedBlk != p {
      WalkFindsAncestor(t, s, p, s.lockedBlk);
    }
  }

  /** Storing a certificate parents first moves the lock whenever the block lies above it. */
  lemma StoreTakesLock(t: Tree, s: L2State, qc: QC)
    requires t.WellFormed() && Truth(t, s) && CertsFiled(s.qcs, s.lockedBlk, s.owed) && LockRule(t, s)
    requires qc.block in s.blocks && qc.block !in s.qcs && qc.block != NONE && qc.height == t.height(qc.block)
    requires t.parent(qc.block) != NONE ==> t.parent(qc.block) in s.qcs
    requires s.lockedBlk != NONE && Descends(t, qc.block, s.lockedBlk)
    ensures TakesLock(s, qc.block, qc.height)
  {
    var x, lock := qc.block, s.lockedBlk;
    DescendsStep(t, x, lock);
    assert t.parent(x) == lock;
    assert Link(s.blocks, x, 1) == lock by { assert Link(s.blocks, lock, 0) == lock; }
    assert Walks(s.blocks, x, lock);
  }

  lemma StoreKeepsLockRule(t: Tree, s: L2State, qc: QC)
    requires t.WellFormed() && Truth(t, s) && NONE !in s.blocks && CertsFiled(s.qcs, s.lockedBlk, s.owed)
    requires LockRule(t, s)
    requires qc.block in s.blocks && qc.block != NONE && qc.height == t.height(qc.block)
    requires qc.block in s.qcs || t.parent(qc.block) == NONE || t.parent(qc.block) in s.qcs
    ensures LockRule(t, StoreQC(s, qc))
  {
    hide TakesLock;
    if qc.block !in s.qcs {
      var s', x, lock := StoreQC(s, qc), qc.block, s.lockedBlk;
      StoreMovesLock(t, s, qc);
      forall b | b in s'.qcs && Descends(t, b, s'.lockedBlk) ensures b == s'.lockedBlk {
        if lock != NONE { DescendsTrans(t, b, s'.lockedBlk, lock); }
        if b == x && s'.lockedBlk != x { StoreTakesLock(t, s, qc); }
        if b != x && s'.lockedBlk == x { TopStays(t, s.qcs.Keys, lock, x, b); }
      }
      forall y | y in s.cast && t.parent(y) != NONE ensures Descends(t, s'.lockedBlk, t.parent(y)) {
        if lock != NONE { DescendsTrans(t, s'.lockedBlk, lock, t.parent(y)); } else { NoneDescends(t, t.parent(y)); }
      }
    }
  }

  lemma NoneDescends(t: Tree, a: BlockId)
    ensures !Descends(t, NONE, a)
  {
    if Descends(t, NONE, a) {
      var k: nat :| Up(t, NONE, k) == a;
      UpNone(t, k);
    }
  }

  lemma TopStays(t: Tree, certified: set<BlockId>, lock: BlockId, x: BlockId, b: BlockId)
    requires t.WellFormed() && LockIsTop(t, certified, lock) && b in certified && x !in certified
    requires if lock == NONE then certified == {} else Descends(t, x, lock)
    ensures !Descends(t, b, x)
  {
    if Descends(t, b, x) {
      DescendsTrans(t, b, x, lock);
      DescendsHigher(t, b, x);
      DescendsHigher(t, x, lock);
    }
  }

  lemma StepKeepsLockRule(cfg: Config, t: Tree, s: L2State, e: Event)
    requires cfg.quorum >= 1 && t.WellFormed() && Basic(cfg, s) && Truth(t, s) && LockRule(t, s)
    requires Legal(cfg, s, e) && Told(t, e) && ParentsFirst(t, s, e) && VotesAfterParent(t, s, e)
    ensures LockRule(t, Apply(cfg, s, e))
  {
    hide SafeToVote, GrandChain, TakesLock, VotesTold, StoreQC, Prune, RecordVote, CheckCommit, LockRule, VerifyQC,
      VerifyVote, VotesAfterParent, LearnCommit;
    match e
    case DeliverQC(qc) => DeliverKeepsLockRule(cfg, t, s, qc);
    case MakeQC(b) => StoreKeepsLockRule(t, s, BuildQC(s, b));
    case MarkVote(b, _, _) => CastKeepsLockRule(cfg, t, s, e, b);
    case RetryVote(b) => CastKeepsLockRule(cfg, t, s, e, b);
    case _ => QuietFrame(cfg, s, e); FrameLockRule(t, s, Apply(cfg, s, e));
  }

  lemma DeliverKeepsLockRule(cfg: Config, t: Tree, s: L2State, qc: QC)
    requires cfg.quorum >= 1 && t.WellFormed() && Basic(cfg, s) && Truth(t, s) && LockRule(t, s)
    requires VerifyQC(cfg, qc) && Told(t, DeliverQC(qc)) && ParentsFirst(t, s, DeliverQC(qc))
    ensures LockRule(t, Apply(cfg, s, DeliverQC(qc)))
  {
    hide SafeToVote, TakesLock, StoreQC, LockRule;
    assert qc.votes[0] in qc.votes;
    var s0 := AddMeta(s, qc.block, qc.parent, qc.height);
    StepKeepsTruth(cfg, t, s, SeeBlock(qc.block, qc.parent, qc.height));
    FrameLockRule(t, s, s0);
    StoreKeepsLockRule(t, s0, qc);
  }

  lemma FrameLockRule(t: Tree, s: L2State, s': L2State)
    requires LockRule(t, s) && SameVoting(s, s')
    ensures LockRule(t, s')
  {
  }

  lemma CastKeepsLockRule(cfg: Config, t: Tree, s: L2State, e: Event, b: BlockId)
    requires Basic(cfg, s) && Truth(t, s) && LockRule(t, s)
    requires Legal(cfg, s, e) && Told(t, e) && VotesAfterParent(t, s, e)
    requires (e.MarkVote? || e.RetryVote?) && e.block == b
    ensures LockRule(t, Apply(cfg, s, e))
  {
    hide GrandChain, TakesLock, StoreQC, Prune, RecordVote, CheckCommit, Walks;
    if Casts(s, e, b) && t.parent(b) != NONE {
      VoterLockedOnParent(cfg, t, s, e, b);
      DescendsSelf(t, s.lockedBlk);
    }
  }
}
