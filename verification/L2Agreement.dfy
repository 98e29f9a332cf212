/** Safety of the L2 protocol over whole network runs. */
module L2Agreement {
  import opened BlockTree
  import opened L2State
  import opened L2Invariants
  import opened L2Commits
  import opened L2Voting
  import opened L2Certificates
  import opened L2Network

  // ---------- a locked quorum keeps conflicting blocks out, whatever the delivery order ----------

  /** The validators w are locked on b or above it and have cast no vote for x; too few others
      remain to certify x. */
  ghost predicate Pinned(net: Net, sys: Sys, w: set<PeerId>, b: BlockId, x: BlockId) {
    w <= net.honest && |w| > |net.honest + net.faulty| - net.cfg.quorum
    && forall p :: p in w && p in sys ==> Descends(net.tree, sys[p].lockedBlk, b) && x !in sys[p].cast
  }

  /** A locked validator casts votes only for blocks without parent or above its lock. */
  lemma CastExtendsLock(cfg: Config, t: Tree, s: L2State, e: Event, x: BlockId)
    requires Basic(cfg, s) && Truth(t, s) && Legal(cfg, s, e) && Told(t, e)
    requires x !in s.cast && x in Apply(cfg, s, e).cast && s.lockedBlk != NONE && t.parent(x) != NONE
    ensures Descends(t, x, s.lockedBlk)
  {
    OnlyVotesCast(cfg, s, e, x);
    assert SafeToVote(s, t.parent(x)) by { hide SafeToVote, Apply; }
    hide Truth, Apply, Legal, SafeToVote;
    SafeExtendsLock(t, s, x);
  }

  /** A vote is cast only by deciding on its block, at once or after it waited. */
  lemma OnlyVotesCast(cfg: Config, s: L2State, e: Event, x: BlockId)
    requires Legal(cfg, s, e) && x !in s.cast && x in Apply(cfg, s, e).cast
    ensures (e.MarkVote? || e.RetryVote?) && e.block == x
    ensures e.MarkVote? ==> x != NONE && SafeToVote(s, e.parent)
    ensures e.RetryVote? ==> x in s.blocks && SafeToVote(s, s.blocks[x].parent)
  {
    hide TakesLock, Prune, RecordVote, GrandChain, StoreQC, CheckCommit, LearnCommit, VerifyQC, VerifyVote, BuildQC,
      SafeToVote;
    if e.DeliverQC? { StoreCastsNothing(AddMeta(s, e.qc.block, e.qc.parent, e.qc.height), e.qc); }
    if e.MakeQC? { StoreCastsNothing(s, BuildQC(s, e.block)); }
    if Quiet(e) { QuietFrame(cfg, s, e); }
  }

  lemma StoreCastsNothing(s: L2State, qc: QC)
    ensures StoreQC(s, qc).cast == s.cast
  {
    hide TakesLock;
  }

  lemma SafeExtendsLock(t: Tree, s: L2State, x: BlockId)
    requires Truth(t, s) && NONE !in s.blocks && s.lockedBlk != NONE && t.parent(x) != NONE && x != NONE
    ensures SafeToVote(s, t.parent(x)) ==> Descends(t, x, s.lockedBlk)
  {
    if SafeToVote(s, t.parent(x)) {
      if t.parent(x) == s.lockedBlk {
        DescendsSelf(t, s.lockedBlk);
      } else {
        WalkFindsAncestor(t, s, t.parent(x), s.lockedBlk);
      }
      DescendsFromParent(t, x, s.lockedBlk);
    }
  }

  lemma StepKeepsPinned(net: Net, sys: Sys, w: set<PeerId>, b: BlockId, x: BlockId, st: Step)
    requires net.Sound() && SysInv(net, sys) && CanStep(net, sys, st) && Pinned(net, sys, w, b, x)
    requires net.tree.parent(x) != NONE && !Descends(net.tree, x, b)
    ensures Pinned(net, Next(net, sys, st), w, b, x)
  {
    hide Apply, Legal, Told, WireOk, Basic, Truth;
    if st.who in w {
      var s := sys[st.who];
      var s' := Apply(net.cfg, s, st.event);
      NoneDescends(net.tree, b);
      StepMovesLock(net.cfg, net.tree, s, st.event);
      DescendsTrans(net.tree, s'.lockedBlk, s.lockedBlk, b);
      if x in s'.cast {
        CastExtendsLock(net.cfg, net.tree, s, st.event, x);
        DescendsTrans(net.tree, x, s.lockedBlk, b);
      }
    }
  }

  lemma PinnedHasNoQC(net: Net, sys: Sys, w: set<PeerId>, b: BlockId, x: BlockId)
    requires SysInv(net, sys) && Pinned(net, sys, w, b, x)
    ensures !Backed(net, sys, x)
    ensures forall i :: i in sys ==> x !in sys[i].qcs
  {
    forall signers ensures !Backing(net, sys, x, signers) {
      if signers <= net.honest + net.faulty && |signers| >= net.cfg.quorum {
        QuorumMeets(net.honest + net.faulty, net.cfg.quorum, signers, w);
        var p :| p in signers * w;
        assert p in sys && x !in sys[p].cast;
      }
    }
    forall i | i in sys ensures x !in sys[i].qcs { assert NodeInv(net, sys, sys[i]); }
  }

  /** Once more than n-q honest validators are locked on b or above and none of them voted for x,
      a block with a parent that does not descend from b, no validator ever stores a certificate
      for x, under any schedule and any behaviour of the faulty validators. */
  lemma {:induction false} LockedQuorumIsStable(net: Net, sys: Sys, w: set<PeerId>, b: BlockId, x: BlockId,
      steps: seq<Step>)
    requires net.Sound() && SysInv(net, sys) && CanRun(net, sys, steps) && Pinned(net, sys, w, b, x)
    requires net.tree.parent(x) != NONE && !Descends(net.tree, x, b)
    ensures var sys' := After(net, sys, steps);
      SysInv(net, sys') && Pinned(net, sys', w, b, x) && forall i :: i in sys' ==> x !in sys'[i].qcs
    decreases |steps|
  {
    if steps != [] {
      var prefix, st := steps[..|steps| - 1], steps[|steps| - 1];
      LockedQuorumIsStable(net, sys, w, b, x, prefix);
      StepKeepsSysInv(net, After(net, sys, prefix), st);
      StepKeepsPinned(net, After(net, sys, prefix), w, b, x, st);
    }
    PinnedHasNoQC(net, After(net, sys, steps), w, b, x);
  }

  // ---------- agreement when certificates arrive parents first ----------

  /** The delivery assumption: parents' certificates before children's and before votes for
      children; and no commit taken over from the network. */
  ghost predicate OrderedStep(net: Net, sys: Sys, st: Step)
    requires CanStep(net, sys, st)
  {
    ParentsFirst(net.tree, sys[st.who], st.event) && VotesAfterParent(net.tree, sys[st.who], st.event)
    && !st.event.NetCommit?
  }

  ghost predicate OrderedRun(net: Net, steps: seq<Step>)
    requires CanRun(net, InitSys(net), steps)
    decreases |steps|
  {
    steps == [] ||
    (OrderedRun(net, steps[..|steps| - 1]) &&
     OrderedStep(net, After(net, InitSys(net), steps[..|steps| - 1]), steps[|steps| - 1]))
  }

  ghost predicate OrderedInv(net: Net, sys: Sys) {
    SysInv(net, sys) &&
    forall i :: i in sys ==> LockRule(net.tree, sys[i]) && sys[i].committed.Keys <= Heads(net.tree, sys[i].qcs.Keys)
  }

  lemma HeadsGrow(t: Tree, q: set<BlockId>, q': set<BlockId>)
    requires q <= q'
    ensures Heads(t, q) <= Heads(t, q')
  {
    forall b | b in Heads(t, q) ensures b in Heads(t, q') {
      var c, g :| ChainAt(t, q, b, c, g);
      assert ChainAt(t, q', b, c, g);
    }
  }

  lemma CommitsAreHeads(cfg: Config, t: Tree, s: L2State, e: Event)
    requires Truth(t, s) && Legal(cfg, s, e) && !e.NetCommit? && s.committed.Keys <= Heads(t, s.qcs.Keys)
    ensures Apply(cfg, s, e).committed.Keys <= Heads(t, Apply(cfg, s, e).qcs.Keys)
  {
    hide SafeToVote, TakesLock, Prune, RecordVote, GrandChain, Heads, Truth, StoreQC, CheckCommit, VerifyQC;
    match e
    case DeliverQC(qc) => StoreCommits(t, AddMeta(s, qc.block, qc.parent, qc.height), qc);
    case MakeQC(b) => StoreCommits(t, s, BuildQC(s, b));
    case CheckFor(b) => CheckCommits(t, s, b);
    case PruneAt(now) => PruneTables(cfg, s, now); PruneFrame(cfg, s, now);
    case _ => OtherTables(cfg, s, e);
  }

  lemma StoreCommits(t: Tree, s: L2State, qc: QC)
    requires s.committed.Keys <= Heads(t, s.qcs.Keys)
    ensures StoreQC(s, qc).committed.Keys <= Heads(t, StoreQC(s, qc).qcs.Keys)
  {
    hide TakesLock, Heads;
    HeadsGrow(t, s.qcs.Keys, StoreQC(s, qc).qcs.Keys);
  }

  lemma CheckCommits(t: Tree, s: L2State, b: BlockId)
    requires Truth(t, s) && s.committed.Keys <= Heads(t, s.qcs.Keys)
    ensures CheckCommit(s, b).committed.Keys <= Heads(t, CheckCommit(s, b).qcs.Keys)
  {
    if b in s.qcs && GrandChain(s.childQCs, s.qcs.Keys, b) {
      var c, g :| KidsAt(s.childQCs, s.qcs.Keys, b, c, g);
      assert ChainAt(t, s.qcs.Keys, b, c, g);
    }
  }

  lemma {:induction false} OrderedRunKeeps(net: Net, steps: seq<Step>)
    requires net.Sound() && CanRun(net, InitSys(net), steps) && OrderedRun(net, steps)
    ensures OrderedInv(net, After(net, InitSys(net), steps))
    decreases |steps|
  {
    hide Apply, Legal, Told, WireOk, Basic, Truth, LockRule, Heads, ParentsFirst, VotesAfterParent;
    if steps == [] {
      InitInv(net);
      assert LockRule(net.tree, Init()) by { InitLockRule(net.tree); }
    } else {
      var prefix, st := steps[..|steps| - 1], steps[|steps| - 1];
      OrderedRunKeeps(net, prefix);
      var sys := After(net, InitSys(net), prefix);
      assert NodeInv(net, sys, sys[st.who]);
      StepKeepsSysInv(net, sys, st);
      StepKeepsLockRule(net.cfg, net.tree, sys[st.who], st.event);
      CommitsAreHeads(net.cfg, net.tree, sys[st.who], st.event);
    }
  }

  lemma InitLockRule(t: Tree)
    ensures LockRule(t, Init())
  {
  }

  /** Certified blocks with parents have their parents on one branch: some honest validator signed
      both and its lock lies above both parents. */
  lemma ParentsOnOneBranch(net: Net, sys: Sys, x: BlockId, y: BlockId)
    requires net.FaultBound() && OrderedInv(net, sys) && Backed(net, sys, x) && Backed(net, sys, y)
    requires net.tree.parent(x) != NONE && net.tree.parent(y) != NONE
    ensures SameBranch(net.tree, net.tree.parent(x), net.tree.parent(y))
  {
    var s1 :| Backing(net, sys, x, s1);
    var s2 :| Backing(net, sys, y, s2);
    QuorumsOverlap(net.honest + net.faulty, s1, s2);
    if s1 * s2 <= net.faulty { SubsetSize(s1 * s2, net.faulty); }
    var p :| p in s1 * s2 && p !in net.faulty;
    assert p in sys && LockRule(net.tree, sys[p]);
    AncestorsComparable(net.tree, sys[p].lockedBlk, net.tree.parent(x), net.tree.parent(y));
  }

  lemma HeadsOnOneBranch(net: Net, sys: Sys, i: PeerId, j: PeerId, b: BlockId, b': BlockId)
    requires net.FaultBound() && OrderedInv(net, sys) && i in sys && j in sys
    requires b in Heads(net.tree, sys[i].qcs.Keys) && b' in Heads(net.tree, sys[j].qcs.Keys)
    ensures SameBranch(net.tree, b, b')
  {
    var t := net.tree;
    var c, g :| ChainAt(t, sys[i].qcs.Keys, b, c, g);
    var c', g' :| ChainAt(t, sys[j].qcs.Keys, b', c', g');
    assert NodeInv(net, sys, sys[i]) && NodeInv(net, sys, sys[j]);
    ParentsOnOneBranch(net, sys, g, g');
    DescendsSelf(t, b);
    DescendsSelf(t, b');
    DescendsFromParent(t, c, b);
    DescendsFromParent(t, c', b');
    if Descends(t, c, c') {
      DescendsTrans(t, c, c', b');
      AncestorsComparable(t, c, b, b');
    } else {
      DescendsTrans(t, c', c, b);
      AncestorsComparable(t, c', b, b');
    }
  }

  /** Agreement: under the delivery assumption and the fault bound, any two blocks committed
      anywhere in the network lie on one branch. */
  lemma Agreement(net: Net, steps: seq<Step>, i: PeerId, j: PeerId, b: BlockId, b': BlockId)
    requires net.Sound() && net.FaultBound() && CanRun(net, InitSys(net), steps) && OrderedRun(net, steps)
    requires var sys := After(net, InitSys(net), steps);
      i in sys && j in sys && b in sys[i].committed && b' in sys[j].committed
    ensures SameBranch(net.tree, b, b')
  {
    OrderedRunKeeps(net, steps);
    HeadsOnOneBranch(net, After(net, InitSys(net), steps), i, j, b, b');
  }
}
