/** L3 next to L2: the notices the L2 service gives, and what L3's tables say once it has heard them. */
module L3OverL2 {
  import opened BlockTree
  import opened L2State
  import opened L2Invariants
  import opened L2Certificates
  import opened L2Commits
  import opened L2Network
  import A2 = L2Agreement
  import S2 = L2Service
  import L3 = L3Finality

  /** The votes in the certificates of the given blocks, taken together. */
  ghost function VoteCount(qcs: Certs, ids: set<BlockId>): nat
    requires ids <= qcs.Keys
  {
    if ids == {} then 0
    else
      var b :| b in ids;
      |qcs[b].votes| + VoteCount(qcs, ids - {b})
  }

  lemma {:induction false} VoteCountSplit(qcs: Certs, ids: set<BlockId>, b: BlockId)
    requires ids <= qcs.Keys && b in ids
    ensures VoteCount(qcs, ids) == |qcs[b].votes| + VoteCount(qcs, ids - {b})
  {
    var c :| c in ids && VoteCount(qcs, ids) == |qcs[c].votes| + VoteCount(qcs, ids - {c});
    if c != b {
      VoteCountSplit(qcs, ids - {c}, b);
      VoteCountSplit(qcs, ids - {b}, c);
      assert ids - {c} - {b} == ids - {b} - {c};
    }
  }

  lemma {:induction false} VoteCountFrame(qcs: Certs, qcs': Certs, ids: set<BlockId>)
    requires ids <= qcs.Keys && ids <= qcs'.Keys && forall b :: b in ids ==> qcs'[b] == qcs[b]
    ensures VoteCount(qcs', ids) == VoteCount(qcs, ids)
  {
    if ids != {} {
      var b :| b in ids;
      VoteCountSplit(qcs, ids, b);
      VoteCountSplit(qcs', ids, b);
      VoteCountFrame(qcs, qcs', ids - {b});
    }
  }

  /** The certified children of b. */
  ghost function CertifiedKids(qcs: Certs, b: BlockId): set<BlockId> {
    set c | c in qcs && qcs[c].parent == b
  }

  /** L3 was told once of every certificate that is not still owed, and of every commit. */
  ghost predicate Told3(qcs: Certs, committed: set<BlockId>, owed: set<BlockId>, notes: seq<L3Note>) {
    && (forall b :: b != NONE ==> L3.WeightOf(notes, b) == VoteCount(qcs, CertifiedKids(qcs, b) - owed))
    && forall b :: b != NONE ==> (L3.CommitHeard(notes, b) <==> b in committed)
  }

  ghost predicate NotesTold(s: L2State) {
    Told3(s.qcs, s.committed.Keys, s.owed, s.notes)
  }

  lemma StoreKeepsNotes(s: L2State, qc: QC)
    requires NotesTold(s) && s.owed <= s.qcs.Keys && qc.block !in s.qcs
    ensures NotesTold(StoreQC(s, qc))
  {
    var s' := StoreQC(s, qc);
    forall b | b != NONE ensures L3.WeightOf(s'.notes, b) == VoteCount(s'.qcs, CertifiedKids(s'.qcs, b) - s'.owed) {
      assert CertifiedKids(s'.qcs, b) - s'.owed == CertifiedKids(s.qcs, b) - s.owed by { hide TakesLock; }
      VoteCountFrame(s.qcs, s'.qcs, CertifiedKids(s.qcs, b) - s.owed);
    }
    hide TakesLock;
  }

  lemma NotifyKeepsNotes(qcs: Certs, committed: set<BlockId>, owed: set<BlockId>, notes: seq<L3Note>, b: BlockId)
    requires Told3(qcs, committed, owed, notes) && b in owed && b in qcs
    ensures Told3(qcs, committed, owed - {b}, notes + [QCNote(qcs[b].parent, b, |qcs[b].votes|)])
  {
    var p := qcs[b].parent;
    L3.HearQC(notes, p, b, |qcs[b].votes|);
    forall c | c != NONE
      ensures VoteCount(qcs, CertifiedKids(qcs, c) - (owed - {b})) ==
        VoteCount(qcs, CertifiedKids(qcs, c) - owed) + (if c == p then |qcs[b].votes| else 0)
    {
      var ids := CertifiedKids(qcs, c) - (owed - {b});
      if c == p {
        VoteCountSplit(qcs, ids, b);
        assert ids - {b} == CertifiedKids(qcs, c) - owed;
      } else {
        assert ids == CertifiedKids(qcs, c) - owed;
      }
    }
    hide L3.CommitHeard, L3.WeightOf;
  }

  lemma CommitKeepsNotes(qcs: Certs, committed: set<BlockId>, owed: set<BlockId>, notes: seq<L3Note>, b: BlockId,
      parent: BlockId, height: int)
    requires Told3(qcs, committed, owed, notes)
    ensures Told3(qcs, committed + {b}, owed, notes + [CommitNote(b, parent, height)])
  {
    L3.HearCommit(notes, b, parent, height);
    hide L3.CommitHeard, L3.WeightOf;
  }

  lemma CheckKeepsNotes(s: L2State, b: BlockId)
    requires NotesTold(s)
    ensures NotesTold(CheckCommit(s, b))
  {
    hide GrandChain, Told3;
    if b in s.blocks {
      CommitKeepsNotes(s.qcs, s.committed.Keys, s.owed, s.notes, b, s.blocks[b].parent, s.blocks[b].height);
      assert s.committed[b := s.blocks[b].height].Keys == s.committed.Keys + {b};
    }
  }

  lemma LearnKeepsNotes(s: L2State, b: BlockId, height: int)
    requires NotesTold(s)
    ensures NotesTold(LearnCommit(s, b, height))
  {
    var s' := LearnCommit(s, b, height);
    assert s.committed[b := height].Keys == s.committed.Keys + {b};
    if b !in s.committed && b != NONE {
      var note := s'.notes[|s.notes|];
      CommitKeepsNotes(s.qcs, s.committed.Keys, s.owed, s.notes, b, note.parent, note.height);
      hide Told3;
    }
  }

  lemma StepKeepsNotes(cfg: Config, s: L2State, e: Event)
    requires Basic(cfg, s) && Legal(cfg, s, e) && NotesTold(s)
    ensures NotesTold(Apply(cfg, s, e))
  {
    hide SafeToVote, GrandChain, TakesLock, StoreQC, RecordVote, Told3, VotesFiled, CheckCommit, LearnCommit,
      VerifyQC, VerifyVote;
    match e
    case DeliverQC(qc) =>
      var s0 := AddMeta(s, qc.block, qc.parent, qc.height);
      StoreOnce(s0, qc);
    case MakeQC(b) => StoreOnce(s, BuildQC(s, b));
    case CheckFor(b) => CheckKeepsNotes(s, b);
    case NotifyL3(b) => NotifyKeepsNotes(s.qcs, s.committed.Keys, s.owed, s.notes, b);
    case NetCommit(b, h) => LearnKeepsNotes(s, b, h);
    case TakeVote(v, now) => TakeKeepsNotes(s, v, now);
    case _ =>
  }

  lemma StoreOnce(s: L2State, qc: QC)
    requires NotesTold(s) && s.owed <= s.qcs.Keys
    ensures NotesTold(StoreQC(s, qc))
  {
    if qc.block !in s.qcs { StoreKeepsNotes(s, qc); }
    hide NotesTold;
  }

  lemma TakeKeepsNotes(s: L2State, v: VoteMsg, now: int)
    requires NotesTold(s)
    ensures NotesTold(RecordVote(s, v, now))
  {
    hide Told3;
  }

  /** Over every run of the service, whatever its messages. */
  lemma {:induction false} RunKeepsNotes(cfg: Config, es: seq<Event>)
    requires cfg.quorum >= 1 && LegalRun(cfg, Init(), es)
    ensures NotesTold(Run(cfg, Init(), es))
    decreases |es|
  {
    if es != [] {
      var prefix := es[..|es| - 1];
      RunKeepsNotes(cfg, prefix);
      RunKeepsBasic(cfg, Init(), prefix);
      StepKeepsNotes(cfg, Run(cfg, Init(), prefix), es[|es| - 1]);
      hide NotesTold;
    } else {
      forall b ensures CertifiedKids(map[], b) - {} == {} && !L3.CommitHeard([], b) {}
    }
  }

  /** Once L3 has heard everything and nothing is owed, the weight of every block is the number of
      votes in the certificates of its children, each certificate counted once, and L3 holds for
      committed exactly the blocks L2 committed. */
  lemma L3AgreesWithL2(l2: S2.L2Service, l3: L3.L3Service)
    requires l2.Valid() && l3.Valid() && l3.h.heard == l2.notes && l2.owed == {}
    ensures forall b :: b != NONE ==> L3.WeightIn(l3.blocks, b) == VoteCount(l2.qcs, CertifiedKids(l2.qcs, b))
    ensures forall b :: b != NONE ==> (L3.CommittedIn(l3.blocks, b) <==> b in l2.committed)
  {
    RunKeepsNotes(l2.Cfg(), l2.trace);
    assert NotesTold(l2.View());
    forall b ensures CertifiedKids(l2.qcs, b) - {} == CertifiedKids(l2.qcs, b) {}
    hide L3.WeightOf, L3.CommitHeard, Run, LegalRun, L3.Finals, L3.Weighed;
  }

  /** Each notice of L2 is one call into L3. */
  method Relay(l3: L3.L3Service, note: L3Note, now: int)
    requires l3.Valid() && (if note.QCNote? then note.parent != NONE else note.block != NONE)
    modifies l3
    ensures l3.Valid() && l3.h.heard == old(l3.h.heard) + [note] && L3.Frozen(old(l3.blocks), l3.blocks)
  {
    hide L3.Kept, L3.VotersKnown, L3.Frozen, L3.Decide, L3.Heavier;
    match note
    case QCNote(parent, child, weight) => l3.RecordDescendantQC(parent, L3.QCRef(child, weight), now);
    case CommitNote(b, parent, height) => l3.RecordBlockMeta(b, parent, height, true, now);
  }

  lemma {:induction false} WeighPrefix(qcs: seq<L3.QCRef>, qcs': seq<L3.QCRef>)
    requires qcs <= qcs'
    ensures L3.Weigh(qcs) <= L3.Weigh(qcs')
    decreases |qcs'|
  {
    if qcs != qcs' {
      WeighPrefix(qcs, qcs'[..|qcs'| - 1]);
    }
  }

  lemma {:induction false} VoteCountGrows(qcs: Certs, ids: set<BlockId>, ids': set<BlockId>)
    requires ids <= ids' <= qcs.Keys
    ensures VoteCount(qcs, ids) <= VoteCount(qcs, ids')
    decreases ids'
  {
    if b :| b in ids' && b !in ids {
      VoteCountSplit(qcs, ids', b);
      VoteCountGrows(qcs, ids, ids' - {b});
    } else {
      assert ids == ids';
    }
  }

  /** What a local finalisation says about the calls from L2. */
  lemma FinalFacts(l3: L3.L3Service, b: BlockId)
    requires l3.Valid() && b in l3.h.finals
    ensures L3.CommitHeard(l3.h.heard, b) && b in l3.blocks
    ensures 3 * |l3.blocks[b].deviceVotes| >= 2 * l3.h.finals[b].total
    ensures L3.WeightOf(l3.h.heard, b) as real >= l3.p.threshold * l3.h.finals[b].stake
  {
    hide L3.Weigh, L3.WeightOf, L3.CommitHeard;
    assert L3.Stands(b, l3.blocks[b], l3.h.finals[b], l3.p);
    assert L3.CommittedIn(l3.blocks, b) && L3.WeightIn(l3.blocks, b) == L3.WeightOf(l3.h.heard, b);
    WeighPrefix(l3.h.finals[b].envelope.qcs, l3.blocks[b].qcs);
  }

  lemma CommitFacts(s: L2State, b: BlockId)
    requires NotesTold(s) && b != NONE
    ensures L3.CommitHeard(s.notes, b) <==> b in s.committed
    ensures L3.WeightOf(s.notes, b) <= VoteCount(s.qcs, CertifiedKids(s.qcs, b))
  {
    VoteCountGrows(s.qcs, CertifiedKids(s.qcs, b) - s.owed, CertifiedKids(s.qcs, b));
    hide L3.WeightOf, L3.CommitHeard;
  }

  /** A block finalised by this node, not by a foreign envelope, is a three-chain head of L2; two
      thirds of the devices known at that step voted for it, and the certificates of its children
      carry the required share of the stake known then. */
  lemma FinalisedMeansCommitted(l2: S2.L2Service, l3: L3.L3Service, b: BlockId)
    requires l2.Valid() && l2.CleanHistory() && l3.Valid() && l3.h.heard == l2.notes
    requires b in l3.h.finals && b != NONE
    ensures b in l2.committed && b in Heads(l2.tree, l2.qcs.Keys)
    ensures b in l3.blocks && 3 * |l3.blocks[b].deviceVotes| >= 2 * l3.h.finals[b].total
    ensures VoteCount(l2.qcs, CertifiedKids(l2.qcs, b)) as real >= l3.p.threshold * l3.h.finals[b].stake
  {
    hide Run, LegalRun, CleanRun, Heads, VoteCount, L3.WeightOf, L3.CommitHeard, L3.Kept, L3.VotersKnown;
    FinalFacts(l3, b);
    ServiceFacts(l2, b);
  }

  lemma ServiceFacts(l2: S2.L2Service, b: BlockId)
    requires l2.Valid() && l2.CleanHistory() && b != NONE
    ensures L3.CommitHeard(l2.notes, b) <==> b in l2.committed
    ensures L3.WeightOf(l2.notes, b) <= VoteCount(l2.qcs, CertifiedKids(l2.qcs, b))
    ensures l2.committed.Keys <= Heads(l2.tree, l2.qcs.Keys)
  {
    RunKeepsNotes(l2.Cfg(), l2.trace);
    CommittedAreHeads(l2.Cfg(), l2.tree, l2.trace);
    CommitFacts(l2.View(), b);
    hide Run, LegalRun, CleanRun, Heads, NotesTold, L3.WeightOf, L3.CommitHeard, VoteCount;
  }

  lemma CommittedAreHeads(cfg: Config, t: Tree, es: seq<Event>)
    requires cfg.quorum >= 1 && LegalRun(cfg, Init(), es) && CleanRun(cfg, t, es)
    ensures var s := Run(cfg, Init(), es); s.committed.Keys <= Heads(t, s.qcs.Keys)
  {
    RunKeepsCommits(cfg, t, es);
    hide Run, LegalRun, CleanRun, Heads, Basic, Truth;
  }

  // ---------- a bare quorum and the default threshold ----------

  /** The default threshold is a little more than two thirds: a certificate with no more votes than
      the quorum of n validators meets it exactly for these n. */
  lemma BareQuorumMeetsThreshold(n: nat)
    requires n >= 1
    ensures HotstuffQuorumSize(n) as real >= L3.DEFAULT_THRESHOLD * n as real <==>
      (n == 3 || (n % 3 == 1 && n / 3 <= 3333333) || (n % 3 == 2 && n / 3 <= 6666666))
  {
    var q, m := HotstuffQuorumSize(n), n / 3;
    assert q as real >= L3.DEFAULT_THRESHOLD * n as real <==> 10000000 * q >= 6666667 * n;
    if n % 3 == 0 {
      assert n == 3 * m && (m >= 2 ==> q == 2 * m);
    } else if n % 3 == 1 {
      assert n == 3 * m + 1 && (m >= 1 ==> q == 2 * m + 1);
    } else {
      assert n == 3 * m + 2 && (m >= 1 ==> q == 2 * m + 2);
    }
  }

  /** With six, nine, twelve, ... validators a block with one certified child never becomes ready while
      that certificate holds no more votes than the quorum. */
  lemma LoneBareQuorumIsNotEnough(l2: S2.L2Service, l3: L3.L3Service, b: BlockId, c: BlockId, n: nat, k: L3.Conditions)
    requires l2.Valid() && l3.Valid() && l3.h.heard == l2.notes && l2.owed == {}
    requires b != NONE && b in l3.blocks && CertifiedKids(l2.qcs, b) == {c}
    requires n % 3 == 0 && n >= 6 && |l2.qcs[c].votes| == HotstuffQuorumSize(n)
    requires k.stake == n as real && k.p.threshold == L3.DEFAULT_THRESHOLD
    ensures !L3.Ready(l3.blocks[b], k)
  {
    L3AgreesWithL2(l2, l3);
    VoteCountSplit(l2.qcs, {c}, c);
    assert {c} - {c} == {};
    BareQuorumMeetsThreshold(n);
    hide L3.Kept, Run, LegalRun;
  }

  // ---------- finality across the network ----------

  ghost predicate AllTold(sys: Sys) {
    forall i :: i in sys ==> NotesTold(sys[i])
  }

  lemma {:induction false} NetworkKeepsNotes(net: Net, steps: seq<Step>)
    requires net.Sound() && CanRun(net, InitSys(net), steps)
    ensures SysInv(net, After(net, InitSys(net), steps)) && AllTold(After(net, InitSys(net), steps))
    decreases |steps|
  {
    if steps == [] {
      InitInv(net);
      RunKeepsNotes(net.cfg, []);
    } else {
      var prefix, st := steps[..|steps| - 1], steps[|steps| - 1];
      NetworkKeepsNotes(net, prefix);
      var sys := After(net, InitSys(net), prefix);
      StepKeepsSysInv(net, sys, st);
      assert NodeInv(net, sys, sys[st.who]);
      StepKeepsNotes(net.cfg, sys[st.who], st.event);
      hide NotesTold, SysInv, NodeInv;
    }
  }

  /** Under the assumptions of agreement, blocks finalised by any two honest nodes lie on one branch. */
  lemma FinalityAgrees(net: Net, steps: seq<Step>, i: PeerId, j: PeerId, ni: L3.L3Service, nj: L3.L3Service,
      b: BlockId, b': BlockId)
    requires net.Sound() && net.FaultBound() && CanRun(net, InitSys(net), steps) && A2.OrderedRun(net, steps)
    requires var sys := After(net, InitSys(net), steps);
      i in sys && j in sys && ni.h.heard == sys[i].notes && nj.h.heard == sys[j].notes
    requires ni.Valid() && nj.Valid() && b in ni.h.finals && b' in nj.h.finals && b != NONE && b' != NONE
    ensures SameBranch(net.tree, b, b')
  {
    var sys := After(net, InitSys(net), steps);
    NetworkKeepsNotes(net, steps);
    assert NotesTold(sys[i]) && NotesTold(sys[j]);
    FinalFacts(ni, b);
    FinalFacts(nj, b');
    CommitFacts(sys[i], b);
    CommitFacts(sys[j], b');
    hide NotesTold, SysInv, AllTold, L3.WeightOf, L3.CommitHeard;
    A2.Agreement(net, steps, i, j, b, b');
  }
}
