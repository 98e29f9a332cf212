/** What an unsafe prune does to later runs, and how it comes about. */
module L2Pruning {
  import opened BlockTree
  import opened L2State
  import opened L2Invariants
  import opened L2Commits

  // ---------- a hidden commit stays hidden until new certificates arrive ----------

  /** Certificates are only added, and a child entry for an old certificate is itself old. */
  ghost predicate OldLinks(s: L2State, s': L2State) {
    s.qcs.Keys <= s'.qcs.Keys &&
    forall p, c :: c in s.qcs && c in Kids(s'.childQCs, p) ==> c in Kids(s.childQCs, p)
  }

  lemma StoreOldLinks(s0: L2State, s: L2State, qc: QC)
    requires OldLinks(s0, s)
    ensures OldLinks(s0, StoreQC(s, qc))
  {
    hide TakesLock;
  }

  lemma PruneOldLinks(cfg: Config, s0: L2State, s: L2State, now: int)
    requires OldLinks(s0, s)
    ensures OldLinks(s0, Prune(cfg, s, now))
  {
    hide Fresh, FreshVotes;
  }

  lemma StepOldLinks(cfg: Config, s0: L2State, s: L2State, e: Event)
    requires OldLinks(s0, s) && Legal(cfg, s, e)
    ensures OldLinks(s0, Apply(cfg, s, e))
  {
    hide SafeToVote, GrandChain, TakesLock, StoreQC, Prune, RecordVote, VerifyQC, VerifyVote;
    match e
    case DeliverQC(qc) => StoreOldLinks(s0, AddMeta(s, qc.block, qc.parent, qc.height), qc);
    case MakeQC(b) => StoreOldLinks(s0, s, BuildQC(s, b));
    case PruneAt(now) => PruneOldLinks(cfg, s0, s, now);
    case TakeVote(v, now) => RecordOldLinks(s0, s, v, now);
    case _ =>
  }

  lemma RecordOldLinks(s0: L2State, s: L2State, v: VoteMsg, now: int)
    requires OldLinks(s0, s)
    ensures OldLinks(s0, RecordVote(s, v, now))
  {
    hide Kids;
  }

  lemma StepCommits(cfg: Config, s: L2State, e: Event, b: BlockId)
    requires Legal(cfg, s, e) && !e.NetCommit? && b !in s.committed
    ensures b in Apply(cfg, s, e).committed ==> e == CheckFor(b) && GrandChain(s.childQCs, s.qcs.Keys, b)
  {
    hide SafeToVote, GrandChain, TakesLock, StoreQC, Prune, RecordVote, VerifyQC, VerifyVote;
    match e
    case DeliverQC(qc) => StoreCommitsNone(AddMeta(s, qc.block, qc.parent, qc.height), qc);
    case MakeQC(b) => StoreCommitsNone(s, BuildQC(s, b));
    case PruneAt(now) => PruneTables(cfg, s, now);
    case TakeVote(v, now) => assert RecordVote(s, v, now).committed == s.committed by { RecordCommitsNone(s, v, now); }
    case _ =>
  }

  lemma StoreCommitsNone(s: L2State, qc: QC)
    ensures StoreQC(s, qc).committed == s.committed
  {
    hide TakesLock;
  }

  lemma RecordCommitsNone(s: L2State, v: VoteMsg, now: int)
    ensures RecordVote(s, v, now).committed == s.committed
  {
  }

  /** A grandchain of b of which child or grandchild was certified after s. */
  ghost predicate NewChain(t: Tree, s: L2State, s': L2State, b: BlockId) {
    exists c, g :: ChainAt(t, s'.qcs.Keys, b, c, g) && !(c in s.qcs && g in s.qcs)
  }

  lemma FoundIsNew(t: Tree, s0: L2State, s: L2State, b: BlockId)
    requires OldLinks(s0, s) && !GrandChain(s0.childQCs, s0.qcs.Keys, b)
    requires CertsTold(t, s.qcs, s.childQCs, s.lockedBlk, s.lockedH) && GrandChain(s.childQCs, s.qcs.Keys, b)
    ensures NewChain(t, s0, s, b)
  {
    var c, g :| KidsAt(s.childQCs, s.qcs.Keys, b, c, g);
    assert ChainAt(t, s.qcs.Keys, b, c, g);
    if c in s0.qcs && g in s0.qcs { assert KidsAt(s0.childQCs, s0.qcs.Keys, b, c, g); }
  }

  lemma NewChainStays(t: Tree, s0: L2State, s: L2State, s': L2State, b: BlockId)
    requires NewChain(t, s0, s, b) && s.qcs.Keys <= s'.qcs.Keys
    ensures NewChain(t, s0, s', b)
  {
    var c, g :| ChainAt(t, s.qcs.Keys, b, c, g) && !(c in s0.qcs && g in s0.qcs);
    assert ChainAt(t, s'.qcs.Keys, b, c, g);
  }

  ghost predicate NoNetCommit(es: seq<Event>) {
    forall i :: 0 <= i < |es| ==> !es[i].NetCommit?
  }

  /** A check of b met a grandchain somewhere in the run. */
  ghost predicate CheckedWithChain(cfg: Config, s: L2State, es: seq<Event>, b: BlockId)
    requires LegalRun(cfg, s, es)
    decreases |es|
  {
    es != [] && (CheckedWithChain(cfg, s, es[..|es| - 1], b) ||
      (es[|es| - 1] == CheckFor(b) && var s1 := Run(cfg, s, es[..|es| - 1]); GrandChain(s1.childQCs, s1.qcs.Keys, b)))
  }

  /** A block whose grandchain the tables do not show stays uncommitted, over every truthful run without a
      commit from the network, until a check meets a grandchain of which child or grandchild is new. */
  lemma {:induction false} HiddenUntilNewChain(cfg: Config, t: Tree, s: L2State, es: seq<Event>, b: BlockId)
    requires cfg.quorum >= 1 && Basic(cfg, s) && Truth(t, s) && b !in s.committed
    requires !GrandChain(s.childQCs, s.qcs.Keys, b)
    requires LegalRun(cfg, s, es) && TruthfulRun(t, es) && NoNetCommit(es)
    ensures OldLinks(s, Run(cfg, s, es))
    ensures b in Run(cfg, s, es).committed ==> CheckedWithChain(cfg, s, es, b) && NewChain(t, s, Run(cfg, s, es), b)
    decreases |es|
  {
    hide Legal, Apply, GrandChain, OldLinks, NewChain, Truth, Basic;
    if es == [] {
      SelfOldLinks(s);
    } else {
      var prefix, e := es[..|es| - 1], es[|es| - 1];
      var s1 := Run(cfg, s, prefix);
      assert TruthfulRun(t, prefix) && NoNetCommit(prefix);
      HiddenUntilNewChain(cfg, t, s, prefix, b);
      RunKeepsTruth(cfg, t, s, prefix);
      StepOldLinks(cfg, s, s1, e);
      if b in s1.committed {
        CertsStay(cfg, s1, e);
        NewChainStays(t, s, s1, Apply(cfg, s1, e), b);
      } else {
        StepCommits(cfg, s1, e, b);
        if b in Apply(cfg, s1, e).committed {
          TruthOfCerts(t, s1);
          FoundIsNew(t, s, s1, b);
          CertsStay(cfg, s1, e);
          NewChainStays(t, s, s1, Apply(cfg, s1, e), b);
        }
      }
    }
  }

  lemma TruthOfCerts(t: Tree, s: L2State)
    requires Truth(t, s)
    ensures CertsTold(t, s.qcs, s.childQCs, s.lockedBlk, s.lockedH)
  {
  }

  lemma SelfOldLinks(s: L2State)
    ensures OldLinks(s, s)
  {
  }

  lemma CertsStay(cfg: Config, s: L2State, e: Event)
    requires Legal(cfg, s, e)
    ensures s.qcs.Keys <= Apply(cfg, s, e).qcs.Keys
  {
    SelfOldLinks(s);
    StepOldLinks(cfg, s, s, e);
    hide Legal, Apply;
  }

  /** So a commit hidden by an unsafe prune stays away, although its block is a three-chain head, until a
      certificate of a further child or grandchild is stored and checked. */
  lemma UnsafePruneDelaysCommit(cfg: Config, t: Tree, s: L2State, now: int, qc: QC, es: seq<Event>)
    requires cfg.quorum >= 1 && t.WellFormed() && Basic(cfg, s) && Truth(t, s) && Kept(t, TablesOf(s))
    requires VerifyQC(cfg, qc) && Told(t, DeliverQC(qc)) && qc.block !in s.committed
    requires TwoBelow(t, s.qcs.Keys, qc.block) && OnlyCommittedWitnesses(t, TablesOf(s), qc.block)
    requires var s' := CheckCommit(AfterOnQC(Prune(cfg, s, now), qc), qc.block);
      LegalRun(cfg, s', es) && TruthfulRun(t, es) && NoNetCommit(es)
    ensures var s' := CheckCommit(AfterOnQC(Prune(cfg, s, now), qc), qc.block);
      qc.block in Heads(t, s'.qcs.Keys) && (qc.block in Run(cfg, s', es).committed ==>
        CheckedWithChain(cfg, s', es, qc.block) && NewChain(t, s', Run(cfg, s', es), qc.block))
  {
    assert qc.votes[0] in qc.votes;
    var s' := CheckCommit(AfterOnQC(Prune(cfg, s, now), qc), qc.block);
    UnsafePruneLosesCommit(cfg, t, s, now, qc);
    PrunedAndDelivered(cfg, t, s, now, qc);
    hide AfterOnQC, CheckCommit, Prune, Basic, Truth, VerifyQC, Kept, OnlyCommittedWitnesses, TwoBelow, Heads,
      GrandChain;
    HiddenUntilNewChain(cfg, t, s', es, qc.block);
  }

  lemma PrunedAndDelivered(cfg: Config, t: Tree, s: L2State, now: int, qc: QC)
    requires cfg.quorum >= 1 && Basic(cfg, s) && Truth(t, s) && VerifyQC(cfg, qc) && Told(t, DeliverQC(qc))
    ensures var s' := CheckCommit(AfterOnQC(Prune(cfg, s, now), qc), qc.block); Basic(cfg, s') && Truth(t, s')
  {
    hide Basic, Truth, Prune, VerifyQC, StoreQC, CheckCommit;
    var s1 := Prune(cfg, s, now);
    StepKeepsBasic(cfg, s, PruneAt(now));
    StepKeepsTruth(cfg, t, s, PruneAt(now));
    StepKeepsBasic(cfg, s1, DeliverQC(qc));
    StepKeepsTruth(cfg, t, s1, DeliverQC(qc));
    var s2 := AfterOnQC(s1, qc);
    StepKeepsBasic(cfg, s2, CheckFor(qc.block));
    StepKeepsTruth(cfg, t, s2, CheckFor(qc.block));
  }

  // ---------- unsafe without disorder ----------

  lemma SnocFirst(cfg: Config, t: Tree, es: seq<Event>, e: Event)
    requires LegalRun(cfg, Init(), es) && ParentsFirstRun(cfg, t, es) && Legal(cfg, Run(cfg, Init(), es), e)
    requires Told(t, e) && !e.NetCommit? && !e.PruneAt? && ParentsFirst(t, Run(cfg, Init(), es), e)
    ensures LegalRun(cfg, Init(), es + [e]) && ParentsFirstRun(cfg, t, es + [e])
    ensures Run(cfg, Init(), es + [e]) == Apply(cfg, Run(cfg, Init(), es), e)
  {
    hide Legal, Apply, Told, ParentsFirst;
    RunSnoc(cfg, Init(), es, e);
    assert (es + [e])[..|es|] == es;
  }

  /** Deliver one more certificate, parents first. */
  lemma DeliverFirst(cfg: Config, t: Tree, es: seq<Event>, qc: QC)
    requires LegalRun(cfg, Init(), es) && ParentsFirstRun(cfg, t, es) && RecordsTold(t, Run(cfg, Init(), es).blocks)
    requires VerifyQC(cfg, qc) && Told(t, DeliverQC(qc))
    requires t.parent(qc.block) == NONE || t.parent(qc.block) in Run(cfg, Init(), es).qcs
    ensures LegalRun(cfg, Init(), es + [DeliverQC(qc)]) && ParentsFirstRun(cfg, t, es + [DeliverQC(qc)])
    ensures var s, s' := Run(cfg, Init(), es), Run(cfg, Init(), es + [DeliverQC(qc)]);
      TablesOf(s') == Delivered(t, TablesOf(s), qc.block) && RecordsTold(t, s'.blocks) && qc.block in s'.qcs
  {
    var s := Run(cfg, Init(), es);
    SnocFirst(cfg, t, es, DeliverQC(qc));
    DeliverTables(t, s, qc);
    DeliverRecords(t, s, qc);
    hide VerifyQC, TakesLock, Run, LegalRun, ParentsFirstRun, Delivered;
  }

  lemma CheckFirst(cfg: Config, t: Tree, es: seq<Event>, b: BlockId)
    requires LegalRun(cfg, Init(), es) && ParentsFirstRun(cfg, t, es)
    ensures LegalRun(cfg, Init(), es + [CheckFor(b)]) && ParentsFirstRun(cfg, t, es + [CheckFor(b)])
    ensures Run(cfg, Init(), es + [CheckFor(b)]) == CheckCommit(Run(cfg, Init(), es), b)
  {
    SnocFirst(cfg, t, es, CheckFor(b));
    hide Run, LegalRun, ParentsFirstRun, CheckCommit;
  }

  lemma InOrderTables(t: Tree, b: BlockId, c: BlockId, d: BlockId, e: BlockId)
    requires t.WellFormed() && NONE !in {b, c, d, e} && t.parent(b) == NONE
    requires t.parent(c) == b && t.parent(d) == c && t.parent(e) == d
    ensures var u0 := Tables({}, {}, map[], {}, {});
      var u := Checked(Delivered(t, Delivered(t, Delivered(t, Delivered(t, u0, b), c), d), e), c);
      !PruneSafe(t, u) &&
      var v := Checked(Pruned(u), b); b in Heads(t, v.certified) && b !in v.committed && b !in v.todo
  {
    var u0 := Tables({}, {}, map[], {}, {});
    var u4 := Delivered(t, Delivered(t, Delivered(t, Delivered(t, u0, b), c), d), e);
    assert t.height(e) == t.height(d) + 1 == t.height(c) + 2 == t.height(b) + 3;
    assert u4.certified == {b, c, d, e} && u4.committed == {};
    assert d in Kids(u4.kids, c) && e in Kids(u4.kids, d);
    assert KidsAt(u4.kids, u4.certified, c, d, e);
    var u := Checked(u4, c);
    assert u.committed == {c};
    assert ChainAt(t, u.certified, b, c, d);
    forall x, g ensures !(ChainAt(t, u.certified, b, x, g) && x !in u.committed) {}
    forall x | x in Kids(u.kids, b) ensures x == c {}
    forall x, g ensures !KidsAt(Pruned(u).kids, u.certified, b, x, g) { assert c !in Pruned(u).kids; }
  }

  /** Even parents first a prune can come between storing a certificate and its commit checks: with four
      certificates in a chain stored and only the second block checked, it hides the commit of the first. */
  lemma InOrderPruneLosesCommit(cfg: Config, t: Tree, qb: QC, qc: QC, qd: QC, qe: QC, now: int)
    requires t.WellFormed() && t.parent(qb.block) == NONE && t.parent(qc.block) == qb.block
    requires t.parent(qd.block) == qc.block && t.parent(qe.block) == qd.block
    requires NONE !in {qb.block, qc.block, qd.block, qe.block}
    requires forall q :: q in {qb, qc, qd, qe} ==> VerifyQC(cfg, q) && Told(t, DeliverQC(q))
    ensures var es := [DeliverQC(qb), DeliverQC(qc), DeliverQC(qd), DeliverQC(qe), CheckFor(qc.block)];
      LegalRun(cfg, Init(), es) && ParentsFirstRun(cfg, t, es) && !PruneSafe(t, TablesOf(Run(cfg, Init(), es)))
      && var s := CheckCommit(Prune(cfg, Run(cfg, Init(), es), now), qb.block);
        qb.block in Heads(t, s.qcs.Keys) && qb.block !in s.committed && qb.block !in s.todo
  {
    var e1, e2 := [DeliverQC(qb)], [DeliverQC(qb), DeliverQC(qc)];
    var e3, e4 := e2 + [DeliverQC(qd)], e2 + [DeliverQC(qd)] + [DeliverQC(qe)];
    var es := [DeliverQC(qb), DeliverQC(qc), DeliverQC(qd), DeliverQC(qe), CheckFor(qc.block)];
    assert [] + [DeliverQC(qb)] == e1 && e1 + [DeliverQC(qc)] == e2 && e4 + [CheckFor(qc.block)] == es;
    assert TablesOf(Init()) == Tables({}, {}, map[], {}, {}) && RecordsTold(t, Init().blocks);
    assert LegalRun(cfg, Init(), []) && ParentsFirstRun(cfg, t, []) && Run(cfg, Init(), []) == Init();
    hide Run, LegalRun, ParentsFirstRun, VerifyQC, Delivered, Checked, Pruned, PruneSafe, Heads, CheckCommit, Prune,
      RecordsTold;
    DeliverFirst(cfg, t, [], qb);
    DeliverFirst(cfg, t, e1, qc);
    DeliverFirst(cfg, t, e2, qd);
    DeliverFirst(cfg, t, e3, qe);
    CheckFirst(cfg, t, e4, qc.block);
    var s4, s5 := Run(cfg, Init(), e4), Run(cfg, Init(), es);
    CheckTables(s4, qc.block);
    PruneTables(cfg, s5, now);
    CheckTables(Prune(cfg, s5, now), qb.block);
    InOrderTables(t, qb.block, qc.block, qd.block, qe.block);
  }

  // ---------- exactly when a prune is safe ----------

  /** No clean run from s ends with all commit checks done and a commit missing. */
  ghost predicate LosesNothing(cfg: Config, t: Tree, s: L2State) {
    forall es :: LegalRun(cfg, s, es) && CleanFrom(cfg, t, s, es) && Run(cfg, s, es).todo == {} ==>
      Run(cfg, s, es).committed.Keys == Heads(t, Run(cfg, s, es).qcs.Keys)
  }

  /** Every block can get a certificate. */
  ghost predicate Certifies(cfg: Config, t: Tree, cert: BlockId -> QC) {
    forall b :: b != NONE ==> cert(b).block == b && VerifyQC(cfg, cert(b)) && Told(t, DeliverQC(cert(b)))
  }

  lemma SnocClean(cfg: Config, t: Tree, s: L2State, es: seq<Event>, e: Event)
    requires LegalRun(cfg, s, es) && CleanFrom(cfg, t, s, es)
    requires Legal(cfg, Run(cfg, s, es), e) && Clean(t, Run(cfg, s, es), e)
    ensures LegalRun(cfg, s, es + [e]) && CleanFrom(cfg, t, s, es + [e])
    ensures Run(cfg, s, es + [e]) == Apply(cfg, Run(cfg, s, es), e)
  {
    hide Legal, Apply, Clean;
    RunSnoc(cfg, s, es, e);
    assert (es + [e])[..|es|] == es;
  }

  /** Do the commit checks that are owed; they find no chain that the tables hide. */
  lemma {:induction false} DoChecks(cfg: Config, t: Tree, s: L2State, es: seq<Event>, b: BlockId)
    returns (es': seq<Event>)
    requires LegalRun(cfg, s, es) && CleanFrom(cfg, t, s, es)
    requires var s1 := Run(cfg, s, es); b !in s1.committed && !GrandChain(s1.childQCs, s1.qcs.Keys, b)
    ensures LegalRun(cfg, s, es') && CleanFrom(cfg, t, s, es')
    ensures var s1, s2 := Run(cfg, s, es), Run(cfg, s, es');
      s2.todo == {} && s2.qcs == s1.qcs && b !in s2.committed
    decreases |Run(cfg, s, es).todo|
  {
    hide Run, LegalRun, CleanFrom, GrandChain;
    var s1 := Run(cfg, s, es);
    es' := es;
    if s1.todo != {} {
      var x :| x in s1.todo;
      SnocClean(cfg, t, s, es, CheckFor(x));
      CheckFrame(s1, x, b);
      es' := DoChecks(cfg, t, s, es + [CheckFor(x)], b);
    }
  }

  lemma CheckFrame(s: L2State, x: BlockId, b: BlockId)
    requires b !in s.committed && !GrandChain(s.childQCs, s.qcs.Keys, b)
    ensures var s' := CheckCommit(s, x);
      s'.qcs == s.qcs && s'.childQCs == s.childQCs && s'.todo == s.todo - {x} && b !in s'.committed
  {
    hide GrandChain;
  }

  lemma HiddenBlock(t: Tree, u: Tables) returns (b: BlockId)
    requires !PruneSafe(t, u)
    ensures b != NONE && b !in u.committed && TwoBelow(t, u.certified, b) && OnlyCommittedWitnesses(t, u, b)
  {
    b :| b != NONE && b !in u.committed && TwoBelow(t, u.certified, b) &&
         !(exists c, g :: ChainAt(t, u.certified, b, c, g) && c !in u.committed);
  }

  lemma DeliverClean(cfg: Config, t: Tree, s: L2State, qc: QC)
    requires VerifyQC(cfg, qc) && Told(t, DeliverQC(qc))
    ensures var es := [DeliverQC(qc)];
      LegalRun(cfg, s, es) && CleanFrom(cfg, t, s, es) && Run(cfg, s, es) == AfterOnQC(s, qc)
  {
    assert LegalRun(cfg, s, []) && CleanFrom(cfg, t, s, []) && Run(cfg, s, []) == s;
    assert [] + [DeliverQC(qc)] == [DeliverQC(qc)];
    SnocClean(cfg, t, s, [], DeliverQC(qc));
    hide Run, LegalRun, CleanFrom, VerifyQC, StoreQC;
  }

  /** An unsafe prune is followed by a clean run that loses a commit. */
  lemma UnsafePruneLosesInRun(cfg: Config, t: Tree, s: L2State, now: int, cert: BlockId -> QC)
    returns (es: seq<Event>)
    requires t.WellFormed() && Kept(t, TablesOf(s)) && RecordsTold(t, s.blocks) && Certifies(cfg, t, cert)
    requires !PruneSafe(t, TablesOf(s))
    ensures var s' := Prune(cfg, s, now);
      LegalRun(cfg, s', es) && CleanFrom(cfg, t, s', es) && Run(cfg, s', es).todo == {}
      && Run(cfg, s', es).committed.Keys != Heads(t, Run(cfg, s', es).qcs.Keys)
  {
    var b := HiddenBlock(t, TablesOf(s));
    var s', qc := Prune(cfg, s, now), cert(b);
    assert qc.block == b && VerifyQC(cfg, qc) && Told(t, DeliverQC(qc));
    hide Run, LegalRun, CleanFrom, Kept, PruneSafe, Certifies, VerifyQC, Told, Prune, Pruned, OnlyCommittedWitnesses,
      TwoBelow, Delivered, GrandChain, Heads, AfterOnQC, RecordsTold;
    DeliverClean(cfg, t, s', qc);
    PruneTables(cfg, s, now);
    PruneKeepsToldRecords(cfg, t, s, now);
    DeliverTables(t, s', qc);
    UnsafePruneHidesChain(t, TablesOf(s), b);
    es := DoChecks(cfg, t, s', [DeliverQC(qc)], b);
  }

  /** Where every block can be certified, a prune is safe if and only if after it no clean run ends with
      all checks done and a commit missing. */
  lemma PruneSafeIffNothingLost(cfg: Config, t: Tree, s: L2State, now: int, cert: BlockId -> QC)
    requires cfg.quorum >= 1 && t.WellFormed() && Basic(cfg, s) && Truth(t, s) && Kept(t, TablesOf(s))
    requires Certifies(cfg, t, cert)
    ensures PruneSafe(t, TablesOf(s)) <==> LosesNothing(cfg, t, Prune(cfg, s, now))
  {
    var s' := Prune(cfg, s, now);
    if PruneSafe(t, TablesOf(s)) {
      PruneKeepsIffSafe(cfg, t, s, now);
      StepKeepsBasic(cfg, s, PruneAt(now));
      StepKeepsTruth(cfg, t, s, PruneAt(now));
      hide Basic, Truth, Prune, Certifies, PruneSafe, Run, LegalRun, CleanFrom;
      forall es | LegalRun(cfg, s', es) && CleanFrom(cfg, t, s', es) && Run(cfg, s', es).todo == {}
        ensures Run(cfg, s', es).committed.Keys == Heads(t, Run(cfg, s', es).qcs.Keys) {
        CleanKeepsCommits(cfg, t, s', es);
      }
    } else {
      var es := UnsafePruneLosesInRun(cfg, t, s, now, cert);
      hide Prune, Run, LegalRun, CleanFrom, Heads, Kept, PruneSafe, Certifies;
    }
  }
}
