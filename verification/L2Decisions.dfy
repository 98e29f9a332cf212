/** What one L2 validator decides, said in terms of the block tree and of the messages it received:
    which blocks it votes for, when its lock moves, and what its votes, certificates and commits carry. */
module L2Decisions {
  import opened BlockTree
  import opened L2State
  import opened L2Invariants
  import opened L2Certificates

  // ---------- votes and lock ----------

  /** The ancestor lies at most 1023 parent links up, and every block before it is recorded. */
  ghost predicate Reaches(t: Tree, recorded: set<BlockId>, b: BlockId, ancestor: BlockId) {
    exists k: nat :: k <= 1023 && Up(t, b, k) == ancestor && Recorded(t, recorded, b, k)
  }

  /** In truthful states it is safe to vote exactly for roots, for any block while there is no lock, and
      for blocks whose parent reaches the lock. */
  lemma VotesExactly(cfg: Config, t: Tree, s: L2State, parent: BlockId)
    requires t.WellFormed() && Basic(cfg, s) && Truth(t, s)
    ensures SafeToVote(s, parent) <==>
      parent == NONE || s.lockedBlk == NONE || Reaches(t, s.blocks.Keys, parent, s.lockedBlk)
  {
    if parent != NONE && s.lockedBlk != NONE {
      WalkReaches(t, s, parent, s.lockedBlk);
      if parent == s.lockedBlk {
        assert Up(t, parent, 0) == s.lockedBlk && Recorded(t, s.blocks.Keys, parent, 0);
      } else if k: nat :| k <= 1023 && Up(t, parent, k) == s.lockedBlk && Recorded(t, s.blocks.Keys, parent, k) {
        assert Up(t, parent, 0) in s.blocks;
        UpHeight(t, parent, k);
      }
    }
  }

  /** At most 1023 recorded links lead from b to the target. */
  ghost predicate LinksTo(blocks: Records, b: BlockId, target: BlockId) {
    exists k: nat :: k <= 1023 && Link(blocks, b, k) == target
  }

  lemma WalkIsLinks(blocks: Records, b: BlockId, target: BlockId)
    requires b != NONE && target != NONE
    ensures Walks(blocks, b, target) <==> LinksTo(blocks, b, target)
    ensures b !in blocks && b != target ==> !LinksTo(blocks, b, target)
  {
    if b !in blocks && b != target {
      forall k: nat ensures Link(blocks, b, k) != target { Unrecorded(blocks, b, k); }
    }
  }

  /** Whatever the messages said: below a lock only recorded heights count, for the walk leads above an
      unrecorded parent only if that is the lock itself. */
  lemma VotesByRecord(s: L2State, parent: BlockId)
    ensures SafeToVote(s, parent) <==>
      parent == NONE || s.lockedBlk == NONE || parent == s.lockedBlk
      || (parent in s.blocks && s.blocks[parent].height >= s.lockedH && LinksTo(s.blocks, parent, s.lockedBlk))
  {
    if parent != NONE && s.lockedBlk != NONE { WalkIsLinks(s.blocks, parent, s.lockedBlk); }
    hide Walks, LinksTo;
  }

  lemma Unrecorded(blocks: Records, b: BlockId, k: nat)
    requires b !in blocks && b != NONE
    ensures Link(blocks, b, k) == if k == 0 then b else NONE
  {
  }

  lemma WalkReaches(t: Tree, s: L2State, b: BlockId, a: BlockId)
    requires Truth(t, s) && a != NONE && NONE !in s.blocks
    ensures Walks(s.blocks, b, a) <==> Reaches(t, s.blocks.Keys, b, a)
  {
    WalkExact(t, s, b, a);
  }

  /** A block other than the lock takes it exactly when there is none or it reaches it. */
  lemma TakesLockExactly(t: Tree, s: L2State, b: BlockId, height: int)
    requires t.WellFormed() && Truth(t, s) && NONE !in s.blocks
    requires b != NONE && height == t.height(b) && b != s.lockedBlk
    ensures LockHeight(s, b, height) == height
    ensures TakesLock(s, b, height) <==> s.lockedBlk == NONE || Reaches(t, s.blocks.Keys, b, s.lockedBlk)
  {
    if s.lockedBlk != NONE {
      WalkReaches(t, s, b, s.lockedBlk);
      if k: nat :| k <= 1023 && Up(t, b, k) == s.lockedBlk && Recorded(t, s.blocks.Keys, b, k) { UpHeight(t, b, k); }
    }
  }

  /** A new certificate moves the lock to its block exactly when there is no lock or the block reaches it,
      over as many levels as the walk spans; the lock's height is then the block's. */
  lemma DeliverMovesLock(cfg: Config, t: Tree, s: L2State, qc: QC)
    requires cfg.quorum >= 1 && t.WellFormed() && Basic(cfg, s) && Truth(t, s)
    requires VerifyQC(cfg, qc) && Told(t, DeliverQC(qc)) && qc.block !in s.qcs
    ensures var s', b := Apply(cfg, s, DeliverQC(qc)), qc.block;
      if s.lockedBlk == NONE || Reaches(t, s.blocks.Keys + {b}, b, s.lockedBlk)
      then s'.lockedBlk == b && s'.lockedH == t.height(b)
      else s'.lockedBlk == s.lockedBlk && s'.lockedH == s.lockedH
  {
    assert qc.votes[0] in qc.votes;
    var s0 := AddMeta(s, qc.block, qc.parent, qc.height);
    StepKeepsTruth(cfg, t, s, SeeBlock(qc.block, qc.parent, qc.height));
    assert s0.blocks.Keys == s.blocks.Keys + {qc.block};
    TakesLockExactly(t, s0, qc.block, qc.height);
    hide Reaches, TakesLock, Truth, LockHeight, Basic, VerifyQC;
  }

  // ---------- what votes and certificates carry ----------

  /** The message is a signed vote for the block. */
  ghost predicate SignedFor(cfg: Config, v: VoteMsg, b: BlockId) {
    v.payload.block == b && b != NONE && v.payload.step == STEP_PREPARE && cfg.sigOk(v)
  }

  /** In every run the votes on file are signed votes of their peers for their blocks. */
  lemma FiledVotesAreSigned(cfg: Config, es: seq<Event>, b: BlockId, p: PeerId)
    requires cfg.quorum >= 1 && LegalRun(cfg, Init(), es)
    requires var s := Run(cfg, Init(), es); b in s.votes && p in s.votes[b]
    ensures var v := Run(cfg, Init(), es).votes[b][p].msg; v.payload.peer == p && SignedFor(cfg, v, b)
  {
    RunKeepsBasic(cfg, Init(), es);
  }

  /** Signed votes of as many peers as there are votes, at least a quorum, for one block and parent. */
  ghost predicate Quorate(cfg: Config, qc: QC) {
    && qc.step == STEP_PREPARE && |Signers(qc.votes)| == |qc.votes| >= cfg.quorum
    && forall v :: v in qc.votes ==> SignedFor(cfg, v, qc.block) && v.payload.parent == qc.parent
  }

  /** Exactly those certificates are accepted. */
  lemma AcceptedIffQuorate(cfg: Config, qc: QC)
    ensures VerifyQC(cfg, qc) <==> Quorate(cfg, qc)
  {
    if DistinctPeers(qc.votes) { DistinctSigners(qc.votes); }
    if !DistinctPeers(qc.votes) { RepeatedSigner(qc.votes); }
    hide Signers, DistinctPeers;
  }

  lemma RepeatedSigner(votes: seq<VoteMsg>)
    requires !DistinctPeers(votes)
    ensures |Signers(votes)| < |votes|
  {
    var i, j :| 0 <= i < j < |votes| && votes[i].payload.peer == votes[j].payload.peer;
    var rest := votes[..j] + votes[j + 1..];
    forall v | v in votes ensures exists w :: w in rest && w.payload.peer == v.payload.peer {
      var k :| 0 <= k < |votes| && votes[k] == v;
      if k == j { assert rest[i] == votes[i]; } else if k < j { assert rest[k] == v; } else { assert rest[k - 1] == v; }
    }
    assert Signers(votes) <= Signers(rest);
    SignersAtMost(rest);
    SubsetSize(Signers(votes), Signers(rest));
  }

  lemma {:induction false} SignersAtMost(votes: seq<VoteMsg>)
    ensures |Signers(votes)| <= |votes|
  {
    if votes != [] {
      var rest := votes[..|votes| - 1];
      SignersAtMost(rest);
      SignersSnoc(rest, votes[|votes| - 1]);
      assert votes == rest + [votes[|votes| - 1]];
      SubsetSize(Signers(rest), Signers(votes));
      hide Signers;
      assert |Signers(rest) + {votes[|votes| - 1].payload.peer}| <= |Signers(rest)| + 1;
    } else {
      assert Signers(votes) == {};
    }
  }

  ghost predicate AllQuorate(cfg: Config, qcs: Certs) {
    forall b :: b in qcs ==> Quorate(cfg, qcs[b])
  }

  lemma StepKeepsQuorate(cfg: Config, t: Tree, s: L2State, e: Event)
    requires Basic(cfg, s) && Truth(t, s) && Legal(cfg, s, e) && AllQuorate(cfg, s.qcs)
    ensures AllQuorate(cfg, Apply(cfg, s, e).qcs)
  {
    hide SafeToVote, GrandChain, TakesLock, Prune, RecordVote, Quorate, VerifyQC, BuildQC, Truth, Basic;
    match e
    case DeliverQC(qc) => AcceptedIffQuorate(cfg, qc);
    case MakeQC(b) =>
      BuiltQCIsAccepted(cfg, t, s, b);
      AcceptedIffQuorate(cfg, BuildQC(s, b));
    case _ => if Quiet(e) { QuietFrame(cfg, s, e); }
  }

  /** In every truthful run all stored certificates, delivered or built, are such certificates. */
  lemma {:induction false} CertsAreQuorate(cfg: Config, t: Tree, es: seq<Event>)
    requires cfg.quorum >= 1 && LegalRun(cfg, Init(), es) && TruthfulRun(t, es)
    ensures AllQuorate(cfg, Run(cfg, Init(), es).qcs)
    decreases |es|
  {
    if es != [] {
      var prefix := es[..|es| - 1];
      CertsAreQuorate(cfg, t, prefix);
      RunKeepsTruth(cfg, t, Init(), prefix);
      StepKeepsQuorate(cfg, t, Run(cfg, Init(), prefix), es[|es| - 1]);
    }
  }

  // ---------- what commits carry ----------

  ghost predicate CommitTold(t: Tree, note: L3Note) {
    note.CommitNote? ==> note.parent == t.parent(note.block) && note.height == t.height(note.block)
  }

  ghost predicate CommitsTold(t: Tree, s: L2State) {
    && (forall b :: b in s.committed ==> s.committed[b] == t.height(b))
    && forall i :: 0 <= i < |s.notes| ==> CommitTold(t, s.notes[i])
  }

  lemma CommitsFrame(cfg: Config, s: L2State, e: Event)
    requires Legal(cfg, s, e) && !e.CheckFor? && !e.NotifyL3? && !e.NetCommit?
    ensures Apply(cfg, s, e).committed == s.committed && Apply(cfg, s, e).notes == s.notes
  {
    hide SafeToVote, TakesLock, VerifyQC, VerifyVote, BuildQC, FreshVotes, FreshKids, StoreQC, RecordVote, Marked;
    match e
    case DeliverQC(qc) => StoreFrame(AddMeta(s, qc.block, qc.parent, qc.height), qc);
    case MakeQC(b) => StoreFrame(s, BuildQC(s, b));
    case TakeVote(v, now) => FileFrame(s, v, now);
    case MarkVote(b, p, _) => DecideFrame(s, b, p);
    case _ =>
  }

  lemma StoreFrame(s: L2State, qc: QC)
    ensures StoreQC(s, qc).committed == s.committed && StoreQC(s, qc).notes == s.notes
  {
    hide TakesLock;
  }

  lemma FileFrame(s: L2State, v: VoteMsg, now: int)
    ensures RecordVote(s, v, now).committed == s.committed && RecordVote(s, v, now).notes == s.notes
  {
  }

  lemma DecideFrame(s: L2State, b: BlockId, parent: BlockId)
    ensures Marked(s, b, parent).committed == s.committed && Marked(s, b, parent).notes == s.notes
  {
    hide SafeToVote;
  }

  lemma StepKeepsCommitsTold(cfg: Config, t: Tree, s: L2State, e: Event)
    requires Truth(t, s) && CommitsTold(t, s) && Legal(cfg, s, e) && !e.NetCommit?
    ensures CommitsTold(t, Apply(cfg, s, e))
  {
    hide SafeToVote, GrandChain, TakesLock, VerifyQC, VerifyVote, BuildQC, VotesTold, CertsTold, RecordVote, Prune;
    if !e.CheckFor? && !e.NotifyL3? { CommitsFrame(cfg, s, e); }
  }

  /** In every truthful run without commits from the network, commits and the notices of them name the
      parent and the height of the block. */
  lemma {:induction false} CommitsAreTold(cfg: Config, t: Tree, es: seq<Event>)
    requires cfg.quorum >= 1 && LegalRun(cfg, Init(), es) && TruthfulRun(t, es)
    requires forall i :: 0 <= i < |es| ==> !es[i].NetCommit?
    ensures CommitsTold(t, Run(cfg, Init(), es))
    decreases |es|
  {
    if es != [] {
      var prefix := es[..|es| - 1];
      CommitsAreTold(cfg, t, prefix);
      RunKeepsTruth(cfg, t, Init(), prefix);
      StepKeepsCommitsTold(cfg, t, Run(cfg, Init(), prefix), es[|es| - 1]);
    }
  }
}
