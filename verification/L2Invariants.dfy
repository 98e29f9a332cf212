/** What every run of one L2 validator keeps. */
module L2Invariants {
  import opened BlockTree
  import opened L2State

  /** The message behind an event tells the truth about parent and height. */
  ghost predicate Told(t: Tree, e: Event) {
    match e
    case BlockInfo(b, p, h) => p == t.parent(b) && h == t.height(b)
    case SeeBlock(b, p, h) => p == t.parent(b) && h == t.height(b)
    case MarkVote(b, p, h) => p == t.parent(b) && h == t.height(b)
    case TakeVote(v, _) => VoteTold(t, v)
    case DeliverQC(qc) => qc.parent == t.parent(qc.block) && qc.height == t.height(qc.block)
    case _ => true
  }

  ghost predicate VoteTold(t: Tree, v: VoteMsg) {
    v.payload.parent == t.parent(v.payload.block) && v.payload.height == t.height(v.payload.block)
  }

  ghost predicate TruthfulRun(t: Tree, es: seq<Event>) {
    forall i :: 0 <= i < |es| ==> Told(t, es[i])
  }

  // ---------- invariants that need no assumption on messages ----------

  type Votes = map<BlockId, map<PeerId, VoteRecord>>
  type Records = map<BlockId, Meta>
  type Certs = map<BlockId, QC>

  ghost predicate VotesFiled(cfg: Config, votes: Votes) {
    forall b, p :: b in votes && p in votes[b] ==>
      var v := votes[b][p].msg; v.payload.block == b && v.payload.peer == p && VerifyVote(cfg, v)
  }

  ghost predicate CertsFiled(qcs: Certs, lockedBlk: BlockId, owed: set<BlockId>) {
    && NONE !in qcs
    && (forall b :: b in qcs ==> qcs[b].block == b)
    && (lockedBlk == NONE <==> qcs == map[])
    && (lockedBlk != NONE ==> lockedBlk in qcs)
    && owed <= qcs.Keys
  }

  /** Votes are filed under their block and signer, the lock is a certified block once there is
      a certificate, and no table has an entry for the empty id. */
  ghost predicate Basic(cfg: Config, s: L2State) {
    VotesFiled(cfg, s.votes) && NONE !in s.blocks && CertsFiled(s.qcs, s.lockedBlk, s.owed)
  }

  lemma StoreKeepsBasic(cfg: Config, s: L2State, qc: QC)
    requires Basic(cfg, s) && qc.block != NONE
    ensures Basic(cfg, StoreQC(s, qc))
  {
    assert qc.block in s.qcs[qc.block := qc];
  }

  lemma TakeKeepsBasic(cfg: Config, s: L2State, v: VoteMsg, now: int)
    requires Basic(cfg, s) && VerifyVote(cfg, v)
    ensures Basic(cfg, RecordVote(s, v, now))
  {
  }

  lemma PruneKeepsBasic(cfg: Config, s: L2State, now: int)
    requires Basic(cfg, s)
    ensures Basic(cfg, Prune(cfg, s, now))
  {
  }

  lemma StepKeepsBasic(cfg: Config, s: L2State, e: Event)
    requires cfg.quorum >= 1 && Basic(cfg, s) && Legal(cfg, s, e)
    ensures Basic(cfg, Apply(cfg, s, e))
  {
    hide SafeToVote, GrandChain, TakesLock, VotesFiled, StoreQC, Prune, RecordVote;
    match e
    case DeliverQC(qc) =>
      assert qc.votes[0] in qc.votes;
      StoreKeepsBasic(cfg, AddMeta(s, qc.block, qc.parent, qc.height), qc);
    case MakeQC(b) => StoreKeepsBasic(cfg, s, BuildQC(s, b));
    case TakeVote(v, now) => TakeKeepsBasic(cfg, s, v, now);
    case PruneAt(now) => PruneKeepsBasic(cfg, s, now);
    case _ =>
  }

  lemma {:induction false} RunKeepsBasic(cfg: Config, s: L2State, es: seq<Event>)
    requires cfg.quorum >= 1 && Basic(cfg, s) && LegalRun(cfg, s, es)
    ensures Basic(cfg, Run(cfg, s, es))
    decreases |es|
  {
    if es != [] {
      RunKeepsBasic(cfg, s, es[..|es| - 1]);
      StepKeepsBasic(cfg, Run(cfg, s, es[..|es| - 1]), es[|es| - 1]);
    }
  }

  /** Blocks with votes are recorded until they are committed. */
  ghost predicate VotesRecorded(s: L2State) {
    s.votes.Keys <= s.blocks.Keys + s.committed.Keys
  }

  lemma StepKeepsRecords(cfg: Config, s: L2State, e: Event)
    requires VotesRecorded(s) && Legal(cfg, s, e)
    ensures VotesRecorded(Apply(cfg, s, e))
  {
    hide SafeToVote, GrandChain, TakesLock, VerifyVote;
  }

  lemma {:induction false} RunKeepsRecords(cfg: Config, s: L2State, es: seq<Event>)
    requires VotesRecorded(s) && LegalRun(cfg, s, es)
    ensures VotesRecorded(Run(cfg, s, es))
    decreases |es|
  {
    if es != [] {
      RunKeepsRecords(cfg, s, es[..|es| - 1]);
      StepKeepsRecords(cfg, Run(cfg, s, es[..|es| - 1]), es[|es| - 1]);
    }
  }

  // ---------- invariants of truthful runs ----------

  ghost predicate VotesTold(t: Tree, votes: Votes) {
    forall b, p :: b in votes && p in votes[b] ==> VoteTold(t, votes[b][p].msg)
  }

  ghost predicate RecordsTold(t: Tree, blocks: Records) {
    forall b :: b in blocks ==> blocks[b] == Meta(t.height(b), t.parent(b))
  }

  ghost predicate CertsTold(t: Tree, qcs: Certs, childQCs: KidTable, lockedBlk: BlockId, lockedH: int) {
    && (forall b :: b in qcs ==> qcs[b].parent == t.parent(b) && qcs[b].height == t.height(b))
    && (forall p, c :: p in childQCs && c in childQCs[p] ==> c in qcs && t.parent(c) == p)
    && (lockedBlk != NONE ==> lockedH == t.height(lockedBlk))
  }

  /** Every table agrees with the block tree. */
  ghost predicate Truth(t: Tree, s: L2State) {
    && VotesTold(t, s.votes) && RecordsTold(t, s.blocks)
    && CertsTold(t, s.qcs, s.childQCs, s.lockedBlk, s.lockedH)
  }

  lemma StoreKeepsTruth(t: Tree, s: L2State, qc: QC)
    requires Truth(t, s) && qc.parent == t.parent(qc.block) && qc.height == t.height(qc.block)
    ensures Truth(t, StoreQC(s, qc))
  {
  }

  lemma TakeKeepsTruth(t: Tree, s: L2State, v: VoteMsg, now: int)
    requires Truth(t, s) && VoteTold(t, v)
    ensures Truth(t, RecordVote(s, v, now))
  {
  }

  lemma PruneKeepsTruth(cfg: Config, t: Tree, s: L2State, now: int)
    requires Truth(t, s)
    ensures Truth(t, Prune(cfg, s, now))
  {
  }

  lemma StepKeepsTruth(cfg: Config, t: Tree, s: L2State, e: Event)
    requires Truth(t, s) && Legal(cfg, s, e) && Told(t, e)
    ensures Truth(t, Apply(cfg, s, e))
  {
    hide SafeToVote, GrandChain, TakesLock, VotesTold, CertsTold, StoreQC, Prune, RecordVote;
    match e
    case DeliverQC(qc) => StoreKeepsTruth(t, AddMeta(s, qc.block, qc.parent, qc.height), qc);
    case MakeQC(b) => StoreKeepsTruth(t, s, BuildQC(s, b));
    case TakeVote(v, now) => TakeKeepsTruth(t, s, v, now);
    case PruneAt(now) => PruneKeepsTruth(cfg, t, s, now);
    case _ =>
  }

  lemma {:induction false} RunKeepsTruth(cfg: Config, t: Tree, s: L2State, es: seq<Event>)
    requires cfg.quorum >= 1 && Basic(cfg, s) && Truth(t, s)
    requires LegalRun(cfg, s, es) && TruthfulRun(t, es)
    ensures Basic(cfg, Run(cfg, s, es)) && Truth(t, Run(cfg, s, es))
    decreases |es|
  {
    if es != [] {
      var prefix := es[..|es| - 1];
      RunKeepsTruth(cfg, t, s, prefix);
      RunKeepsBasic(cfg, s, es);
      StepKeepsTruth(cfg, t, Run(cfg, s, prefix), es[|es| - 1]);
    }
  }

  // ---------- events that leave certificates, lock and votes cast alone ----------

  predicate Quiet(e: Event) {
    !e.DeliverQC? && !e.MakeQC? && !e.MarkVote? && !e.RetryVote?
  }

  ghost predicate SameVoting(s: L2State, s': L2State) {
    s'.qcs == s.qcs && s'.lockedBlk == s.lockedBlk && s'.lockedH == s.lockedH && s'.cast == s.cast
  }

  lemma QuietFrame(cfg: Config, s: L2State, e: Event)
    requires Quiet(e) && Legal(cfg, s, e)
    ensures SameVoting(s, Apply(cfg, s, e))
  {
    hide SafeToVote, GrandChain, Prune, RecordVote, VerifyVote;
    match e
    case TakeVote(v, now) => TakeFrame(s, v, now);
    case PruneAt(now) => PruneFrame(cfg, s, now);
    case _ =>
  }

  lemma TakeFrame(s: L2State, v: VoteMsg, now: int)
    ensures SameVoting(s, RecordVote(s, v, now))
  {
  }

  lemma PruneFrame(cfg: Config, s: L2State, now: int)
    ensures SameVoting(s, Prune(cfg, s, now))
  {
  }

  // ---------- the lock ----------

  ghost predicate Recorded(t: Tree, recorded: set<BlockId>, b: BlockId, k: nat) {
    forall j: nat :: j < k ==> Up(t, b, j) in recorded
  }

  /** The bounded walk finds exactly the ancestors within 1023 links all of which are recorded. */
  lemma WalkExact(t: Tree, s: L2State, b: BlockId, a: BlockId)
    requires Truth(t, s) && a != NONE && NONE !in s.blocks
    ensures Walks(s.blocks, b, a) <==>
      exists k: nat :: k <= 1023 && Up(t, b, k) == a && Recorded(t, s.blocks.Keys, b, k)
  {
    forall k: nat ensures Link(s.blocks, b, k) == a <==>
        Up(t, b, k) == a && Recorded(t, s.blocks.Keys, b, k) {
      LinkIsUp(t, s, b, k, a);
    }
  }

  lemma {:induction false} LinkIsUp(t: Tree, s: L2State, b: BlockId, k: nat, a: BlockId)
    requires Truth(t, s) && a != NONE && NONE !in s.blocks
    ensures Link(s.blocks, b, k) == a <==> Up(t, b, k) == a && Recorded(t, s.blocks.Keys, b, k)
    decreases k
  {
    if k > 0 {
      if b in s.blocks {
        var p := t.parent(b);
        LinkIsUp(t, s, p, k - 1, a);
        forall j: nat | j < k - 1 ensures Up(t, p, j) == Up(t, b, j + 1) {}
        if Recorded(t, s.blocks.Keys, p, k - 1) {
          forall j: nat | j < k ensures Up(t, b, j) in s.blocks {
            if j > 0 { assert Up(t, b, j) == Up(t, p, j - 1); }
          }
        }
      } else {
        assert Up(t, b, 0) !in s.blocks;
      }
    }
  }

  lemma WalkFindsAncestor(t: Tree, s: L2State, b: BlockId, a: BlockId)
    requires Truth(t, s) && NONE !in s.blocks && Walks(s.blocks, b, a)
    ensures Descends(t, b, a)
  {
    WalkExact(t, s, b, a);
  }

  ghost predicate LockMoved(t: Tree, s: L2State, s': L2State) {
    s.lockedBlk != NONE ==>
      && Descends(t, s'.lockedBlk, s.lockedBlk)
      && (if s'.lockedBlk == s.lockedBlk then s'.lockedH == s.lockedH else s'.lockedH > s.lockedH)
  }

  lemma StoreMovesLock(t: Tree, s: L2State, qc: QC)
    requires Truth(t, s) && NONE !in s.blocks && qc.block != NONE && qc.height == t.height(qc.block)
    ensures LockMoved(t, s, StoreQC(s, qc))
  {
    if s.lockedBlk != NONE {
      DescendsSelf(t, s.lockedBlk);
      if Walks(s.blocks, qc.block, s.lockedBlk) { WalkFindsAncestor(t, s, qc.block, s.lockedBlk); }
    }
  }

  lemma StepMovesLock(cfg: Config, t: Tree, s: L2State, e: Event)
    requires cfg.quorum >= 1 && Basic(cfg, s) && Truth(t, s) && Legal(cfg, s, e) && Told(t, e)
    ensures LockMoved(t, s, Apply(cfg, s, e))
  {
    hide SafeToVote, GrandChain, TakesLock, VotesTold, CertsTold, StoreQC, Prune, VotesFiled, CertsFiled;
    if s.lockedBlk != NONE { DescendsSelf(t, s.lockedBlk); }
    match e
    case DeliverQC(qc) =>
      assert qc.votes[0] in qc.votes;
      StoreMovesLock(t, AddMeta(s, qc.block, qc.parent, qc.height), qc);
    case MakeQC(b) => StoreMovesLock(t, s, BuildQC(s, b));
    case _ => if !e.MarkVote? && !e.RetryVote? { QuietFrame(cfg, s, e); }
  }

  /** From any point of a truthful run on, the lock only moves down its own branch, and strictly
      up in height whenever it moves. */
  lemma {:induction false} LockHistory(cfg: Config, t: Tree, s: L2State, es: seq<Event>)
    requires cfg.quorum >= 1 && Basic(cfg, s) && Truth(t, s)
    requires LegalRun(cfg, s, es) && TruthfulRun(t, es)
    ensures LockMoved(t, s, Run(cfg, s, es))
    ensures var s' := Run(cfg, s, es); s'.qcs != map[] ==> s'.lockedBlk in s'.qcs
    decreases |es|
  {
    if es != [] {
      var prefix := es[..|es| - 1];
      var s0 := Run(cfg, s, prefix);
      LockHistory(cfg, t, s, prefix);
      RunKeepsTruth(cfg, t, s, prefix);
      StepMovesLock(cfg, t, s0, es[|es| - 1]);
      if s.lockedBlk != NONE { DescendsTrans(t, Run(cfg, s, es).lockedBlk, s0.lockedBlk, s.lockedBlk); }
    } else if s.lockedBlk != NONE {
      DescendsSelf(t, s.lockedBlk);
    }
    RunKeepsTruth(cfg, t, s, es);
  }
}
