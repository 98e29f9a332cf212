/** Local commits of one validator are exactly the three-chain heads of its certificates. */
module L2Commits {
  import opened BlockTree
  import opened L2State
  import opened L2Invariants

  /** The tables the commit rule reads and writes. */
  datatype Tables = Tables(
    certified: set<BlockId>, recorded: set<BlockId>, kids: KidTable, committed: set<BlockId>, todo: set<BlockId>)

  function TablesOf(s: L2State): Tables {
    Tables(s.qcs.Keys, s.blocks.Keys, s.childQCs, s.committed.Keys, s.todo)
  }

  ghost predicate KidsTold(t: Tree, u: Tables) {
    forall p, c :: p in u.kids && c in u.kids[p] ==> c in u.certified && t.parent(c) == p
  }

  // ---------- the invariant ----------

  ghost predicate MetaKnown(u: Tables) {
    u.certified <= u.recorded + u.committed
  }

  ghost predicate KidsComplete(t: Tree, u: Tables) {
    forall c :: c in u.certified && t.parent(c) != NONE && t.parent(c) !in u.committed ==>
      c in Kids(u.kids, t.parent(c))
  }

  ghost predicate ChainsVisible(t: Tree, u: Tables) {
    forall b :: b != NONE && b !in u.committed && TwoBelow(t, u.certified, b) ==> GrandChain(u.kids, u.certified, b)
  }

  /** Committed blocks are heads; a head not yet committed has a commit check coming. */
  ghost predicate CommitsKept(t: Tree, u: Tables) {
    u.committed <= Heads(t, u.certified) <= u.committed + u.todo
  }

  ghost predicate Kept(t: Tree, u: Tables) {
    && NONE !in u.certified && KidsTold(t, u)
    && MetaKnown(u) && KidsComplete(t, u) && ChainsVisible(t, u) && CommitsKept(t, u)
  }

  // ---------- storing a certificate ----------

  ghost function Stored(t: Tree, u: Tables, x: BlockId): Tables {
    var p := t.parent(x);
    u.(certified := u.certified + {x},
       kids := if p == NONE then u.kids else u.kids[p := Kids(u.kids, p) + {x}],
       todo := u.todo + ({p, x, if p != NONE && p in u.recorded then t.parent(p) else NONE} - {NONE}))
  }

  lemma StoredShowsKids(t: Tree, u: Tables, x: BlockId)
    requires KidsComplete(t, u) && x !in u.certified
    ensures KidsComplete(t, Stored(t, u, x))
  {
  }

  lemma StoredShowsChains(t: Tree, u: Tables, x: BlockId)
    requires NONE !in u.certified + {x} && x !in u.certified
    requires KidsComplete(t, u) && ChainsVisible(t, u) && CommitsKept(t, u)
    ensures ChainsVisible(t, Stored(t, u, x))
  {
    var u' := Stored(t, u, x);
    assert x !in u.committed;
    assert forall y :: Kids(u.kids, y) <= Kids(u'.kids, y);
    hide Heads, CommitsKept;
    forall b | b != NONE && b !in u.committed && TwoBelow(t, u'.certified, b)
      ensures GrandChain(u'.kids, u'.certified, b) {
      if TwoBelow(t, u.certified, b) {
        var c, g :| KidsAt(u.kids, u.certified, b, c, g);
        assert KidsAt(u'.kids, u'.certified, b, c, g);
      } else {
        var c, g :| ChainAt(t, u'.certified, b, c, g);
        assert !ChainAt(t, u.certified, b, c, g);
        assert c in Kids(u'.kids, b) && g in Kids(u'.kids, c);
        assert KidsAt(u'.kids, u'.certified, b, c, g);
      }
    }
  }

  /** Only the stored block, its parent and its grandparent can become heads; the grandparent's
      record is missing only when it was a head before. */
  lemma StoredOwesChecks(t: Tree, u: Tables, x: BlockId)
    requires Kept(t, u) && x !in u.certified && x != NONE
    ensures CommitsKept(t, Stored(t, u, x))
  {
    var u' := Stored(t, u, x);
    forall b | b in Heads(t, u'.certified) ensures b in u.committed || b in u'.todo {
      if b !in Heads(t, u.certified) && b != x && b != t.parent(x) {
        var c, g :| ChainAt(t, u'.certified, b, c, g);
        assert !ChainAt(t, u.certified, b, c, g);
        assert g == x && c in u.certified;
        if c in u.committed {
          var d, e :| ChainAt(t, u.certified, c, d, e);
          assert ChainAt(t, u.certified, b, c, d);
        }
      }
    }
    forall b | b in u.committed ensures b in Heads(t, u'.certified) {
      assert b in Heads(t, u.certified);
      var c, g :| ChainAt(t, u.certified, b, c, g);
      assert ChainAt(t, u'.certified, b, c, g);
    }
  }

  lemma StoredKeeps(t: Tree, u: Tables, x: BlockId)
    requires Kept(t, u) && x in u.recorded && x != NONE && x !in u.certified
    ensures Kept(t, Stored(t, u, x))
  {
    hide KidsComplete, ChainsVisible, CommitsKept;
    StoredShowsKids(t, u, x);
    StoredShowsChains(t, u, x);
    StoredOwesChecks(t, u, x);
  }

  // ---------- checking a block ----------

  ghost function Checked(u: Tables, b: BlockId): Tables {
    u.(todo := u.todo - {b},
       committed := if b == NONE || b !in u.certified || !GrandChain(u.kids, u.certified, b) || b !in u.recorded
                    then u.committed else u.committed + {b})
  }

  lemma CheckedKeeps(t: Tree, u: Tables, b: BlockId)
    requires Kept(t, u)
    ensures Kept(t, Checked(u, b))
  {
    CheckedCommits(t, u, b);
    CheckedTables(t, u, b);
    hide KidsTold, MetaKnown, KidsComplete, ChainsVisible, CommitsKept, Checked;
  }

  lemma CheckedTables(t: Tree, u: Tables, b: BlockId)
    requires KidsTold(t, u) && MetaKnown(u) && KidsComplete(t, u) && ChainsVisible(t, u)
    ensures var u' := Checked(u, b);
      u'.certified == u.certified && KidsTold(t, u') && MetaKnown(u') && KidsComplete(t, u') && ChainsVisible(t, u')
  {
    hide GrandChain, TwoBelow, Kids;
  }

  lemma CheckedCommits(t: Tree, u: Tables, b: BlockId)
    requires Kept(t, u)
    ensures CommitsKept(t, Checked(u, b))
  {
    if b in u.certified && GrandChain(u.kids, u.certified, b) {
      var c, g :| KidsAt(u.kids, u.certified, b, c, g);
      assert ChainAt(t, u.certified, b, c, g);
    }
    hide KidsComplete, GrandChain, TwoBelow;
  }

  // ---------- pruning ----------

  /** Every uncommitted block with a certified child and grandchild keeps an uncommitted witness,
      so that deleting the child tables of committed blocks does not hide its three-chain. */
  ghost predicate PruneSafe(t: Tree, u: Tables) {
    forall b :: b != NONE && b !in u.committed && TwoBelow(t, u.certified, b) ==>
      exists c, g :: ChainAt(t, u.certified, b, c, g) && c !in u.committed
  }

  ghost function Pruned(u: Tables): Tables {
    u.(recorded := u.recorded - u.committed,
       kids := FreshKids(u.kids, u.certified, u.committed))
  }

  lemma PrunedKeeps(t: Tree, u: Tables)
    requires Kept(t, u) && PruneSafe(t, u)
    ensures Kept(t, Pruned(u))
  {
    var u' := Pruned(u);
    forall c | c in u.certified && t.parent(c) != NONE && t.parent(c) !in u.committed
      ensures c in Kids(u'.kids, t.parent(c)) {
      assert c in Kids(u.kids, t.parent(c)) * u.certified;
    }
    forall b | b != NONE && b !in u.committed && TwoBelow(t, u.certified, b)
      ensures GrandChain(u'.kids, u.certified, b) {
      var c, g :| ChainAt(t, u.certified, b, c, g) && c !in u.committed;
      assert KidsAt(u'.kids, u.certified, b, c, g);
    }
  }

  // ---------- runs ----------

  /** The events for which commits are claimed exact: truthful messages, no commit learned from
      the network, and pruning only when it is safe. */
  ghost predicate Clean(t: Tree, s: L2State, e: Event) {
    Told(t, e) && !e.NetCommit? && (e.PruneAt? ==> PruneSafe(t, TablesOf(s)))
  }

  ghost predicate CleanFrom(cfg: Config, t: Tree, s: L2State, es: seq<Event>)
    requires LegalRun(cfg, s, es)
    decreases |es|
  {
    es == [] || (CleanFrom(cfg, t, s, es[..|es| - 1]) && Clean(t, Run(cfg, s, es[..|es| - 1]), es[|es| - 1]))
  }

  ghost predicate CleanRun(cfg: Config, t: Tree, es: seq<Event>)
    requires LegalRun(cfg, Init(), es)
  {
    CleanFrom(cfg, t, Init(), es)
  }

  lemma KeptFrame(t: Tree, u: Tables, u': Tables)
    requires Kept(t, u) && u.recorded <= u'.recorded && u' == u.(recorded := u'.recorded)
    ensures Kept(t, u')
  {
    hide TwoBelow, GrandChain, Heads, Kids;
  }

  lemma StoreTables(t: Tree, s: L2State, qc: QC)
    requires RecordsTold(t, s.blocks) && qc.parent == t.parent(qc.block)
    ensures TablesOf(StoreQC(s, qc)) == if qc.block in s.qcs then TablesOf(s) else Stored(t, TablesOf(s), qc.block)
  {
    hide TakesLock;
    assert s.qcs[qc.block := qc].Keys == s.qcs.Keys + {qc.block};
  }

  lemma CheckTables(s: L2State, b: BlockId)
    ensures TablesOf(CheckCommit(s, b)) == Checked(TablesOf(s), b)
  {
    hide GrandChain;
    if b in s.blocks {
      assert s.committed[b := s.blocks[b].height].Keys == s.committed.Keys + {b};
      if b in s.committed { assert s.committed.Keys + {b} == s.committed.Keys; }
    }
  }

  lemma PruneTables(cfg: Config, s: L2State, now: int)
    ensures TablesOf(Prune(cfg, s, now)) == Pruned(TablesOf(s))
  {
    assert (s.blocks - s.committed.Keys).Keys == s.blocks.Keys - s.committed.Keys;
  }

  lemma OtherTables(cfg: Config, s: L2State, e: Event)
    requires Legal(cfg, s, e) && !e.DeliverQC? && !e.MakeQC? && !e.CheckFor? && !e.PruneAt? && !e.NetCommit?
    ensures var u := TablesOf(Apply(cfg, s, e));
      u == TablesOf(s).(recorded := u.recorded) && s.blocks.Keys <= u.recorded
  {
    hide SafeToVote, GrandChain, TakesLock, StoreQC, Prune, CheckCommit;
  }

  lemma StepKeepsCommits(cfg: Config, t: Tree, s: L2State, e: Event)
    requires cfg.quorum >= 1 && Basic(cfg, s) && Truth(t, s) && Kept(t, TablesOf(s))
    requires Legal(cfg, s, e) && Clean(t, s, e)
    ensures Kept(t, TablesOf(Apply(cfg, s, e)))
  {
    hide SafeToVote, GrandChain, TakesLock, VotesTold, CertsTold, StoreQC, Prune, CheckCommit, Kept, PruneSafe,
      RecordVote;
    match e
    case DeliverQC(qc) =>
      assert qc.votes[0] in qc.votes;
      var s0 := AddMeta(s, qc.block, qc.parent, qc.height);
      KeptFrame(t, TablesOf(s), TablesOf(s0));
      StoreTables(t, s0, qc);
      if qc.block !in s.qcs { StoredKeeps(t, TablesOf(s0), qc.block); }
    case MakeQC(b) =>
      StoreTables(t, s, BuildQC(s, b));
      StoredKeeps(t, TablesOf(s), b);
    case CheckFor(b) => CheckTables(s, b); CheckedKeeps(t, TablesOf(s), b);
    case PruneAt(now) => PruneTables(cfg, s, now); PrunedKeeps(t, TablesOf(s));
    case NetCommit(_, _) => assert false;
    case _ =>
      OtherTables(cfg, s, e);
      KeptFrame(t, TablesOf(s), TablesOf(Apply(cfg, s, e)));
  }

  lemma {:induction false} CleanKeepsCommits(cfg: Config, t: Tree, s0: L2State, es: seq<Event>)
    requires cfg.quorum >= 1 && Basic(cfg, s0) && Truth(t, s0) && Kept(t, TablesOf(s0))
    requires LegalRun(cfg, s0, es) && CleanFrom(cfg, t, s0, es)
    ensures var s := Run(cfg, s0, es); Basic(cfg, s) && Truth(t, s) && Kept(t, TablesOf(s))
    decreases |es|
  {
    if es != [] {
      var prefix, e := es[..|es| - 1], es[|es| - 1];
      CleanKeepsCommits(cfg, t, s0, prefix);
      var s := Run(cfg, s0, prefix);
      StepKeepsBasic(cfg, s, e);
      StepKeepsTruth(cfg, t, s, e);
      StepKeepsCommits(cfg, t, s, e);
    }
  }

  lemma RunKeepsCommits(cfg: Config, t: Tree, es: seq<Event>)
    requires cfg.quorum >= 1 && LegalRun(cfg, Init(), es) && CleanRun(cfg, t, es)
    ensures var s := Run(cfg, Init(), es); Basic(cfg, s) && Truth(t, s) && Kept(t, TablesOf(s))
  {
    CleanKeepsCommits(cfg, t, Init(), es);
  }

  /** Whenever no commit check is owed, the committed blocks are exactly the three-chain heads of
      all certificates ever stored: whatever the arrival order and the interleaving of handlers. */
  lemma CommitsExact(cfg: Config, t: Tree, es: seq<Event>)
    requires cfg.quorum >= 1 && LegalRun(cfg, Init(), es) && CleanRun(cfg, t, es)
    requires Run(cfg, Init(), es).todo == {}
    ensures var s := Run(cfg, Init(), es); s.committed.Keys == Heads(t, s.qcs.Keys)
  {
    RunKeepsCommits(cfg, t, es);
  }

  // ---------- when pruning is harmless ----------

  /** Pruning keeps the commit invariant exactly when it is safe. */
  lemma PruneKeepsIffSafe(cfg: Config, t: Tree, s: L2State, now: int)
    requires Kept(t, TablesOf(s))
    ensures Kept(t, TablesOf(Prune(cfg, s, now))) <==> PruneSafe(t, TablesOf(s))
  {
    var u, u' := TablesOf(s), Pruned(TablesOf(s));
    PruneTables(cfg, s, now);
    if Kept(t, u') {
      forall b | b != NONE && b !in u.committed && TwoBelow(t, u.certified, b)
        ensures exists c, g :: ChainAt(t, u.certified, b, c, g) && c !in u.committed
      {
        var c, g :| KidsAt(u'.kids, u'.certified, b, c, g);
        assert ChainAt(t, u.certified, b, c, g);
      }
    }
    if PruneSafe(t, u) { PrunedKeeps(t, u); }
  }

  ghost predicate OnlyCommittedWitnesses(t: Tree, u: Tables, b: BlockId) {
    forall c, g :: ChainAt(t, u.certified, b, c, g) ==> c in u.committed
  }

  lemma NoWitness(t: Tree, u: Tables, b: BlockId, kids: KidTable, c: BlockId, g: BlockId)
    requires t.WellFormed() && Kept(t, u) && b != NONE && b !in u.committed && OnlyCommittedWitnesses(t, u, b)
    requires kids == Pruned(u).kids || kids == Stored(t, Pruned(u), b).kids
    ensures !KidsAt(kids, u.certified + {b}, b, c, g)
  {
    if KidsAt(kids, u.certified + {b}, b, c, g) {
      assert t.parent(c) == b;
      assert c in u.certified;
      assert g in Kids(Pruned(u).kids, c);
      assert ChainAt(t, u.certified, b, c, g);
    }
  }

  /** onQC for a certificate of b. */
  ghost function Delivered(t: Tree, u: Tables, b: BlockId): Tables {
    var v := u.(recorded := u.recorded + {b});
    if b in u.certified then v else Stored(t, v, b)
  }

  lemma UnsafePruneHidesChain(t: Tree, u: Tables, b: BlockId)
    requires t.WellFormed() && Kept(t, u) && b != NONE && b !in u.committed
    requires TwoBelow(t, u.certified, b) && OnlyCommittedWitnesses(t, u, b)
    ensures var u2 := Delivered(t, Pruned(u), b);
      b in Heads(t, u2.certified) && b !in u2.committed && !GrandChain(u2.kids, u2.certified, b)
    ensures var u3 := Checked(Delivered(t, Pruned(u), b), b);
      b in Heads(t, u3.certified) && b !in u3.committed && b !in u3.todo
  {
    var u1 := Pruned(u);
    var kids := if b in u.certified then u1.kids else Stored(t, u1, b).kids;
    assert u.certified + {b} == if b in u.certified then u.certified else u.certified + {b};
    forall c, g ensures !KidsAt(kids, u.certified + {b}, b, c, g) { NoWitness(t, u, b, kids, c, g); }
    assert b in Heads(t, u.certified + {b}) by {
      var c, g :| ChainAt(t, u.certified, b, c, g);
      assert ChainAt(t, u.certified + {b}, b, c, g);
    }
    hide Kept, OnlyCommittedWitnesses, TwoBelow, Heads, KidsAt, FreshKids, Kids;
  }

  ghost function AfterOnQC(s: L2State, qc: QC): L2State {
    StoreQC(AddMeta(s, qc.block, qc.parent, qc.height), qc)
  }

  lemma DeliverTables(t: Tree, s: L2State, qc: QC)
    requires RecordsTold(t, s.blocks) && Told(t, DeliverQC(qc))
    ensures TablesOf(AfterOnQC(s, qc)) == Delivered(t, TablesOf(s), qc.block)
  {
    hide TakesLock, StoreQC, Stored;
    var s' := AddMeta(s, qc.block, qc.parent, qc.height);
    StoreTables(t, s', qc);
    assert s'.blocks.Keys == s.blocks.Keys + {qc.block};
  }

  /** An unsafe prune hides a commit: once the certificate of the block it hid is stored and checked,
      that block is a three-chain head, is not committed, and no commit check for it is coming. */
  lemma UnsafePruneLosesCommit(cfg: Config, t: Tree, s: L2State, now: int, qc: QC)
    requires t.WellFormed() && Kept(t, TablesOf(s)) && RecordsTold(t, s.blocks)
    requires Told(t, DeliverQC(qc)) && qc.block != NONE && qc.block !in s.committed
    requires TwoBelow(t, s.qcs.Keys, qc.block) && OnlyCommittedWitnesses(t, TablesOf(s), qc.block)
    ensures var s' := CheckCommit(AfterOnQC(Prune(cfg, s, now), qc), qc.block);
      qc.block in Heads(t, s'.qcs.Keys) && qc.block !in s'.committed && qc.block !in s'.todo
      && !GrandChain(s'.childQCs, s'.qcs.Keys, qc.block)
  {
    hide AfterOnQC, CheckCommit, Prune, Kept, OnlyCommittedWitnesses, TwoBelow, Heads, Delivered, Checked, Pruned;
    PruneTables(cfg, s, now);
    PruneKeepsToldRecords(cfg, t, s, now);
    DeliverTables(t, Prune(cfg, s, now), qc);
    CheckTables(AfterOnQC(Prune(cfg, s, now), qc), qc.block);
    UnsafePruneHidesChain(t, TablesOf(s), qc.block);
    CheckedFrame(Delivered(t, Pruned(TablesOf(s)), qc.block), qc.block);
    hide GrandChain;
  }

  lemma CheckedFrame(u: Tables, b: BlockId)
    ensures Checked(u, b).kids == u.kids && Checked(u, b).certified == u.certified && Checked(u, b).todo == u.todo - {b}
  {
  }

  /** Unsafe prunes do occur when certificates arrive out of order: with certificates for c, d and
      e stored but not for their ancestor b, committing c leaves b without an uncommitted witness. */
  lemma OutOfOrderPruneIsUnsafe(t: Tree, b: BlockId, qc: QC, qd: QC, qe: QC)
    requires t.WellFormed() && Told(t, DeliverQC(qc)) && Told(t, DeliverQC(qd)) && Told(t, DeliverQC(qe))
    requires NONE !in {b, qc.block, qd.block, qe.block}
    requires t.parent(qc.block) == b && t.parent(qd.block) == qc.block && t.parent(qe.block) == qd.block
    ensures var s := CheckCommit(AfterOnQC(AfterOnQC(AfterOnQC(Init(), qc), qd), qe), qc.block);
      qc.block in s.committed && !PruneSafe(t, TablesOf(s))
  {
    hide StoreQC, CheckCommit, AfterOnQC;
    var c, d, e := qc.block, qd.block, qe.block;
    var s1 := AfterOnQC(Init(), qc);
    var s2 := AfterOnQC(s1, qd);
    var s3 := AfterOnQC(s2, qe);
    DeliverTables(t, Init(), qc);
    DeliverRecords(t, Init(), qc);
    DeliverTables(t, s1, qd);
    DeliverRecords(t, s1, qd);
    DeliverTables(t, s2, qe);
    CheckTables(s3, c);
    OutOfOrderTables(t, b, c, d, e);
    assert TablesOf(Init()) == Tables({}, {}, map[], {}, {});
  }

  lemma DeliverRecords(t: Tree, s: L2State, qc: QC)
    requires RecordsTold(t, s.blocks) && Told(t, DeliverQC(qc))
    ensures RecordsTold(t, AfterOnQC(s, qc).blocks)
  {
    hide TakesLock;
  }

  lemma OutOfOrderTables(t: Tree, b: BlockId, c: BlockId, d: BlockId, e: BlockId)
    requires t.WellFormed() && NONE !in {b, c, d, e} && t.parent(c) == b && t.parent(d) == c && t.parent(e) == d
    ensures var u0 := Tables({}, {}, map[], {}, {});
      var u := Checked(Delivered(t, Delivered(t, Delivered(t, u0, c), d), e), c);
      c in u.committed && !PruneSafe(t, u)
  {
    var u0 := Tables({}, {}, map[], {}, {});
    var u3 := Delivered(t, Delivered(t, Delivered(t, u0, c), d), e);
    assert t.height(e) == t.height(d) + 1 == t.height(c) + 2 == t.height(b) + 3;
    assert u3.certified == {c, d, e} && u3.committed == {};
    assert d in Kids(u3.kids, c) && e in Kids(u3.kids, d);
    assert KidsAt(u3.kids, u3.certified, c, d, e);
    var u := Checked(u3, c);
    assert u.committed == {c};
    assert ChainAt(t, u.certified, b, c, d);
    forall x, g ensures !(ChainAt(t, u.certified, b, x, g) && x !in u.committed) {}
  }

  lemma PruneKeepsToldRecords(cfg: Config, t: Tree, s: L2State, now: int)
    requires RecordsTold(t, s.blocks)
    ensures RecordsTold(t, Prune(cfg, s, now).blocks)
  {
  }

  // ---------- parents first ----------

  /** A certificate is stored only after its parent's. */
  ghost predicate ParentsFirst(t: Tree, s: L2State, e: Event) {
    match e
    case DeliverQC(qc) => qc.block in s.qcs || t.parent(qc.block) == NONE || t.parent(qc.block) in s.qcs
    case MakeQC(b) => t.parent(b) == NONE || t.parent(b) in s.qcs
    case _ => true
  }

  ghost predicate ParentClosed(t: Tree, certified: set<BlockId>) {
    forall b :: b in certified && t.parent(b) != NONE ==> t.parent(b) in certified
  }

  lemma StepKeepsParentClosed(cfg: Config, t: Tree, s: L2State, e: Event)
    requires ParentClosed(t, s.qcs.Keys) && Legal(cfg, s, e) && ParentsFirst(t, s, e)
    ensures ParentClosed(t, Apply(cfg, s, e).qcs.Keys)
  {
    hide SafeToVote, GrandChain, TakesLock, Prune, RecordVote, CheckCommit;
    if Quiet(e) { QuietFrame(cfg, s, e); }
  }

  /** Runs with parents first in which pruning, interleaved anywhere, finds no handler half done. */
  ghost predicate ParentsFirstRun(cfg: Config, t: Tree, es: seq<Event>)
    requires LegalRun(cfg, Init(), es)
    decreases |es|
  {
    es == [] ||
    (ParentsFirstRun(cfg, t, es[..|es| - 1]) &&
     var s, e := Run(cfg, Init(), es[..|es| - 1]), es[|es| - 1];
     Told(t, e) && !e.NetCommit? && ParentsFirst(t, s, e) && (e.PruneAt? ==> s.todo == {}))
  }

  lemma {:induction false} ParentsFirstIsClean(cfg: Config, t: Tree, es: seq<Event>)
    requires cfg.quorum >= 1 && LegalRun(cfg, Init(), es) && ParentsFirstRun(cfg, t, es)
    ensures CleanRun(cfg, t, es) && ParentClosed(t, Run(cfg, Init(), es).qcs.Keys)
    decreases |es|
  {
    if es != [] {
      var prefix, e := es[..|es| - 1], es[|es| - 1];
      ParentsFirstIsClean(cfg, t, prefix);
      RunKeepsCommits(cfg, t, prefix);
      var s := Run(cfg, Init(), prefix);
      StepKeepsParentClosed(cfg, t, s, e);
      if e.PruneAt? { QuietPruneIsSafe(t, TablesOf(s)); }
    }
  }

  lemma QuietPruneIsSafe(t: Tree, u: Tables)
    requires Kept(t, u) && ParentClosed(t, u.certified) && u.todo == {}
    ensures PruneSafe(t, u)
  {
    forall b | b != NONE && b !in u.committed ensures !TwoBelow(t, u.certified, b) {
      if TwoBelow(t, u.certified, b) { HeadByParents(t, u.certified, b); }
    }
  }

  lemma HeadByParents(t: Tree, certified: set<BlockId>, b: BlockId)
    requires ParentClosed(t, certified) && TwoBelow(t, certified, b) && b != NONE
    ensures b in Heads(t, certified)
  {
  }

  /** With parents first, pruning deletes block records and child tables of committed blocks
      without changing which blocks are ever committed. */
  lemma PruningIsHarmless(cfg: Config, t: Tree, es: seq<Event>)
    requires cfg.quorum >= 1 && LegalRun(cfg, Init(), es) && ParentsFirstRun(cfg, t, es)
    requires Run(cfg, Init(), es).todo == {}
    ensures var s := Run(cfg, Init(), es); s.committed.Keys == Heads(t, s.qcs.Keys)
  {
    ParentsFirstIsClean(cfg, t, es);
    CommitsExact(cfg, t, es);
  }
}
