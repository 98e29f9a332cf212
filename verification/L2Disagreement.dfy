/** The delivery assumption of agreement is needed: without any faulty validator, votes cast before the
    first certificate arrives let two branches commit, even when certificates arrive parents first. */
module L2Disagreement {
  import opened BlockTree
  import opened L2State
  import opened L2Invariants
  import opened L2Commits
  import opened L2Certificates
  import opened L2Network

  /** Every honest validator can sign a truthful vote for every block. */
  ghost predicate Signs(net: Net, vote: (PeerId, BlockId) -> VoteMsg) {
    forall p, b :: p in net.honest && b != NONE ==>
      vote(p, b).payload == VotePayload(b, net.tree.parent(b), net.tree.height(b), STEP_PREPARE, p)
      && net.cfg.sigOk(vote(p, b))
  }

  ghost predicate Ready(net: Net, sys: Sys) {
    SysInv(net, sys) && forall i :: i in sys ==> Kept(net.tree, TablesOf(sys[i])) && sys[i].sentVote <= sys[i].cast
  }

  ghost predicate Unlocked(sys: Sys) {
    forall i :: i in sys ==> sys[i].lockedBlk == NONE
  }

  ghost predicate AllCast(sys: Sys, bs: seq<BlockId>) {
    forall i, b :: i in sys && b in bs ==> b in sys[i].cast
  }

  lemma RunSnoc(net: Net, sys: Sys, steps: seq<Step>, st: Step)
    requires CanRun(net, sys, steps)
    ensures CanRun(net, sys, steps + [st]) <==> CanStep(net, After(net, sys, steps), st)
    ensures CanRun(net, sys, steps + [st]) ==> After(net, sys, steps + [st]) == Next(net, After(net, sys, steps), st)
  {
    hide CanStep, Next;
    assert (steps + [st])[..|steps|] == steps;
  }

  lemma {:induction false} RunConcat(net: Net, sys: Sys, a: seq<Step>, b: seq<Step>)
    requires CanRun(net, sys, a) && CanRun(net, After(net, sys, a), b)
    ensures CanRun(net, sys, a + b) && After(net, sys, a + b) == After(net, After(net, sys, a), b)
    decreases |b|
  {
    if b == [] {
      assert a + b == a;
    } else {
      hide CanStep, Next;
      var prefix, last := b[..|b| - 1], b[|b| - 1];
      RunConcat(net, sys, a, prefix);
      assert b == prefix + [last] && a + b == (a + prefix) + [last];
      RunSnoc(net, After(net, sys, a), prefix, last);
      RunSnoc(net, sys, a + prefix, last);
      hide CanRun, After;
    }
  }

  /** Certificates are stored parents first, and no commit is taken over from the network: what agreement
      asks of deliveries, but for its demand on votes. */
  ghost predicate CertsInOrder(net: Net, sys: Sys, steps: seq<Step>)
    requires CanRun(net, sys, steps)
    decreases |steps|
  {
    steps == [] ||
    (CertsInOrder(net, sys, steps[..|steps| - 1]) &&
     InOrder(net, After(net, sys, steps[..|steps| - 1]), steps[|steps| - 1]))
  }

  ghost predicate InOrder(net: Net, sys: Sys, st: Step) {
    st.who in sys && ParentsFirst(net.tree, sys[st.who], st.event) && !st.event.NetCommit?
  }

  lemma {:induction false} OrderConcat(net: Net, sys: Sys, a: seq<Step>, b: seq<Step>)
    requires CanRun(net, sys, a) && CanRun(net, After(net, sys, a), b)
    requires CertsInOrder(net, sys, a) && CertsInOrder(net, After(net, sys, a), b)
    ensures CanRun(net, sys, a + b) && CertsInOrder(net, sys, a + b)
    decreases |b|
  {
    hide CanStep, Next, InOrder;
    RunConcat(net, sys, a, b);
    if b == [] {
      assert a + b == a;
    } else {
      var prefix, last := b[..|b| - 1], b[|b| - 1];
      OrderConcat(net, sys, a, prefix);
      RunConcat(net, sys, a, prefix);
      assert (a + b)[..|a + b| - 1] == a + prefix;
      hide After;
    }
  }

  lemma OneStep(net: Net, sys: Sys, st: Step)
    requires CanStep(net, sys, st)
    ensures CanRun(net, sys, [st]) && After(net, sys, [st]) == Next(net, sys, st)
    ensures CertsInOrder(net, sys, [st]) <==> InOrder(net, sys, st)
  {
    hide CanStep, Next;
    assert [st][..0] == [];
  }

  lemma StepKeepsReady(net: Net, sys: Sys, st: Step)
    requires net.Sound() && Ready(net, sys) && CanStep(net, sys, st) && !st.event.NetCommit? && !st.event.PruneAt?
    ensures Ready(net, Next(net, sys, st)) && Grows(sys, Next(net, sys, st))
  {
    hide Apply, Legal, Told, WireOk, Basic, Truth, Kept, SysInv;
    StepKeepsSysInv(net, sys, st);
    assert NodeInv(net, sys, sys[st.who]) by { Node(net, sys, st.who); }
    StepKeepsCommits(net.cfg, net.tree, sys[st.who], st.event);
    SentIsCast(net.cfg, sys[st.who], st.event);
  }

  lemma Node(net: Net, sys: Sys, i: PeerId)
    requires SysInv(net, sys) && i in sys
    ensures NodeInv(net, sys, sys[i])
  {
  }

  lemma SentIsCast(cfg: Config, s: L2State, e: Event)
    requires Legal(cfg, s, e) && s.sentVote <= s.cast && !e.PruneAt?
    ensures Apply(cfg, s, e).sentVote <= Apply(cfg, s, e).cast
  {
    hide SafeToVote, TakesLock, GrandChain;
    if Quiet(e) { QuietFrame(cfg, s, e); }
  }

  /** While nobody is locked, everybody can be made to cast a vote for b. */
  lemma {:induction false} CastByAll(net: Net, sys: Sys, ps: set<PeerId>, b: BlockId) returns (steps: seq<Step>)
    requires net.Sound() && Ready(net, sys) && Unlocked(sys) && ps <= sys.Keys && b != NONE
    ensures CanRun(net, sys, steps)
    ensures var sys' := After(net, sys, steps);
      Ready(net, sys') && Unlocked(sys') && Grows(sys, sys') && forall p :: p in ps ==> b in sys'[p].cast
    ensures CertsInOrder(net, sys, steps)
  {
    hide Ready, SysInv, Apply;
    steps := [];
    if ps != {} {
      var p :| p in ps;
      var st := Step(p, MarkVote(b, net.tree.parent(b), net.tree.height(b)));
      StepKeepsReady(net, sys, st);
      var sys1 := Next(net, sys, st);
      MarkCasts(net, sys, p, b);
      var rest := CastByAll(net, sys1, ps - {p}, b);
      OneStep(net, sys, st);
      RunConcat(net, sys, [st], rest);
      OrderConcat(net, sys, [st], rest);
      steps := [st] + rest;
    }
  }

  lemma MarkCasts(net: Net, sys: Sys, p: PeerId, b: BlockId)
    requires Ready(net, sys) && p in sys && sys[p].lockedBlk == NONE && b != NONE
    ensures var s' := Apply(net.cfg, sys[p], MarkVote(b, net.tree.parent(b), net.tree.height(b)));
      b in s'.cast && s'.lockedBlk == NONE
  {
    hide SysInv, Kept;
  }

  lemma {:induction false} CastBlocks(net: Net, sys: Sys, bs: seq<BlockId>) returns (steps: seq<Step>)
    requires net.Sound() && Ready(net, sys) && Unlocked(sys) && NONE !in bs
    ensures CanRun(net, sys, steps)
    ensures var sys' := After(net, sys, steps); Ready(net, sys') && Grows(sys, sys') && AllCast(sys', bs)
    ensures CertsInOrder(net, sys, steps)
    decreases |bs|
  {
    hide Ready, Unlocked;
    steps := [];
    if bs != [] {
      assert bs == [bs[0]] + bs[1..];
      var first := CastByAll(net, sys, sys.Keys, bs[0]);
      var rest := CastBlocks(net, After(net, sys, first), bs[1..]);
      RunConcat(net, sys, first, rest);
      OrderConcat(net, sys, first, rest);
      steps := first + rest;
    }
  }

  ghost function CertFor(net: Net, vote: (PeerId, BlockId) -> VoteMsg, b: BlockId): QC {
    var table := map p | p in net.honest :: VoteRecord(vote(p, b), 0);
    QC(b, net.tree.parent(b), net.tree.height(b), STEP_PREPARE, Messages(table, table.Keys))
  }

  lemma CertVerifies(net: Net, vote: (PeerId, BlockId) -> VoteMsg, b: BlockId)
    requires Signs(net, vote) && |net.honest| >= net.cfg.quorum && b != NONE
    ensures VerifyQC(net.cfg, CertFor(net, vote, b))
    ensures forall v :: v in CertFor(net, vote, b).votes ==> v.payload.peer in net.honest && v.payload.block == b
  {
    hide Messages, Signers;
    var table := map p | p in net.honest :: VoteRecord(vote(p, b), 0);
    assert table.Keys == net.honest;
    MessagesHold(table, table.Keys);
  }

  lemma CertDelivers(net: Net, vote: (PeerId, BlockId) -> VoteMsg, sys: Sys, i: PeerId, b: BlockId)
    requires Signs(net, vote) && |net.honest| >= net.cfg.quorum && sys.Keys == net.honest
    requires i in sys && b != NONE && forall p :: p in sys ==> b in sys[p].cast
    ensures CanStep(net, sys, Step(i, DeliverQC(CertFor(net, vote, b))))
  {
    CertVerifies(net, vote, b);
    hide VerifyQC, Messages, Signs;
  }

  lemma DeliverStores(cfg: Config, s: L2State, qc: QC)
    requires VerifyQC(cfg, qc)
    ensures Apply(cfg, s, DeliverQC(qc)).qcs.Keys == s.qcs.Keys + {qc.block}
    ensures Apply(cfg, s, DeliverQC(qc)).cast == s.cast
  {
    hide TakesLock;
  }

  /** Every block of the list is a root, or its parent is known or comes before it. */
  ghost predicate ListedInOrder(t: Tree, known: set<BlockId>, bs: seq<BlockId>) {
    forall k :: 0 <= k < |bs| ==> t.parent(bs[k]) == NONE || t.parent(bs[k]) in known || t.parent(bs[k]) in bs[..k]
  }

  lemma ListedTail(t: Tree, known: set<BlockId>, bs: seq<BlockId>)
    requires ListedInOrder(t, known, bs) && bs != []
    ensures t.parent(bs[0]) == NONE || t.parent(bs[0]) in known
    ensures ListedInOrder(t, known + {bs[0]}, bs[1..])
  {
    assert bs[..0] == [];
    forall k | 0 <= k < |bs[1..]| ensures var x := t.parent(bs[1..][k]);
      x == NONE || x in known + {bs[0]} || x in bs[1..][..k] {
      assert bs[..k + 1] == [bs[0]] + bs[1..][..k] && bs[1..][k] == bs[k + 1];
    }
  }

  /** Once everybody has voted for them, validator i can be handed certificates for all of bs. */
  lemma {:induction false} StoreBlocks(net: Net, vote: (PeerId, BlockId) -> VoteMsg, sys: Sys, i: PeerId,
      bs: seq<BlockId>)
    returns (steps: seq<Step>)
    requires net.Sound() && Ready(net, sys) && Signs(net, vote) && |net.honest| >= net.cfg.quorum
    requires i in sys && AllCast(sys, bs) && NONE !in bs
    ensures CanRun(net, sys, steps)
    ensures var sys' := After(net, sys, steps);
      Ready(net, sys') && i in sys' && forall b :: b in bs || b in sys[i].qcs ==> b in sys'[i].qcs
    ensures ListedInOrder(net.tree, sys[i].qcs.Keys, bs) ==> CertsInOrder(net, sys, steps)
    decreases |bs|
  {
    hide Kept, NodeInv, Signs, Apply, CertFor, ListedInOrder;
    steps := [];
    if bs != [] {
      assert bs == [bs[0]] + bs[1..] && bs[0] in bs;
      var qc := CertFor(net, vote, bs[0]);
      var st := Step(i, DeliverQC(qc));
      CertDelivers(net, vote, sys, i, bs[0]);
      StepKeepsReady(net, sys, st);
      assert qc.block == bs[0] by { CertBlock(net, vote, bs[0]); }
      DeliverStores(net.cfg, sys[i], qc);
      CastLasts(sys, Next(net, sys, st), bs);
      var rest := StoreBlocks(net, vote, Next(net, sys, st), i, bs[1..]);
      OneStep(net, sys, st);
      RunConcat(net, sys, [st], rest);
      if ListedInOrder(net.tree, sys[i].qcs.Keys, bs) {
        ListedTail(net.tree, sys[i].qcs.Keys, bs);
        assert InOrder(net, sys, st);
        OrderConcat(net, sys, [st], rest);
      }
      steps := [st] + rest;
    }
  }

  lemma CastLasts(sys: Sys, sys': Sys, bs: seq<BlockId>)
    requires Grows(sys, sys') && AllCast(sys, bs) && bs != []
    ensures AllCast(sys', bs[1..])
  {
    forall i, b | i in sys' && b in bs[1..] ensures b in sys'[i].cast {
      assert bs == [bs[0]] + bs[1..] && b in bs;
    }
  }

  lemma CertBlock(net: Net, vote: (PeerId, BlockId) -> VoteMsg, b: BlockId)
    ensures CertFor(net, vote, b).block == b
  {
  }

  /** A commit check of a three-chain head commits it. */
  lemma CheckCommitsHead(net: Net, sys: Sys, i: PeerId, b: BlockId) returns (sys': Sys)
    requires net.Sound() && Ready(net, sys) && i in sys && b in Heads(net.tree, sys[i].qcs.Keys)
    ensures CanRun(net, sys, [Step(i, CheckFor(b))]) && CertsInOrder(net, sys, [Step(i, CheckFor(b))])
    ensures sys' == After(net, sys, [Step(i, CheckFor(b))])
    ensures Ready(net, sys') && i in sys' && b in sys'[i].committed
    ensures sys'[i].qcs == sys[i].qcs && sys[i].committed.Keys <= sys'[i].committed.Keys
  {
    hide SysInv, Kept, Heads, GrandChain;
    var st := Step(i, CheckFor(b));
    sys' := Next(net, sys, st);
    OneStep(net, sys, st);
    StepKeepsReady(net, sys, st);
    CheckTables(sys[i], b);
    KeptCommits(net.tree, TablesOf(sys'[i]), b);
  }

  lemma KeptCommits(t: Tree, u: Tables, b: BlockId)
    requires Kept(t, u) && b in Heads(t, u.certified) && b !in u.todo
    ensures b in u.committed
  {
  }

  /** For every network whose honest validators form a quorum, and any two three-block chains whose
      first blocks are not on one branch, there is a run without faults in which one validator commits both.
      For chains that begin with roots, only the demand that votes follow the parent's certificate is broken. */
  lemma AgreementNeedsOrder(net: Net, vote: (PeerId, BlockId) -> VoteMsg, i: PeerId,
      a: BlockId, a1: BlockId, a2: BlockId, b: BlockId, b1: BlockId, b2: BlockId)
    returns (steps: seq<Step>)
    requires net.Sound() && Signs(net, vote) && |net.honest| >= net.cfg.quorum && i in net.honest
    requires NONE !in {a, a1, a2, b, b1, b2} && !SameBranch(net.tree, a, b)
    requires net.tree.parent(a1) == a && net.tree.parent(a2) == a1 && net.tree.parent(b1) == b
    requires net.tree.parent(b2) == b1
    ensures CanRun(net, InitSys(net), steps)
    ensures var sys := After(net, InitSys(net), steps); i in sys && a in sys[i].committed && b in sys[i].committed
    ensures net.tree.parent(a) == net.tree.parent(b) == NONE ==> CertsInOrder(net, InitSys(net), steps)
  {
    hide CertsInOrder, Ready, Heads, CanStep, Next, Signs, AllCast, CanRun, After;
    var t, sys0, bs := net.tree, InitSys(net), [a, a1, a2, b, b1, b2];
    InitReady(net);
    var casts := CastBlocks(net, sys0, bs);
    var sys1 := After(net, sys0, casts);
    var stores := StoreBlocks(net, vote, sys1, i, bs);
    var sys2 := After(net, sys1, stores);
    var q := sys2[i].qcs.Keys;
    assert forall x :: x in bs ==> x in q;
    assert a in q && a1 in q && a2 in q && b in q && b1 in q && b2 in q by {
      assert bs[0] == a && bs[1] == a1 && bs[2] == a2 && bs[3] == b && bs[4] == b1 && bs[5] == b2;
    }
    HeadOf(t, q, a, a1, a2);
    HeadOf(t, q, b, b1, b2);
    var sys3 := CheckCommitsHead(net, sys2, i, a);
    var sys4 := CheckCommitsHead(net, sys3, i, b);
    RunConcat(net, sys2, [Step(i, CheckFor(a))], [Step(i, CheckFor(b))]);
    var checks := [Step(i, CheckFor(a))] + [Step(i, CheckFor(b))];
    RunConcat(net, sys1, stores, checks);
    RunConcat(net, sys0, casts, stores + checks);
    OrderConcat(net, sys2, [Step(i, CheckFor(a))], [Step(i, CheckFor(b))]);
    if t.parent(a) == NONE && t.parent(b) == NONE {
      ChainsInOrder(t, sys1[i].qcs.Keys, bs);
      OrderConcat(net, sys1, stores, checks);
      OrderConcat(net, sys0, casts, stores + checks);
    }
    steps := casts + (stores + checks);
  }

  lemma ChainsInOrder(t: Tree, known: set<BlockId>, bs: seq<BlockId>)
    requires |bs| == 6 && t.parent(bs[0]) == NONE && t.parent(bs[1]) == bs[0] && t.parent(bs[2]) == bs[1]
    requires t.parent(bs[3]) == NONE && t.parent(bs[4]) == bs[3] && t.parent(bs[5]) == bs[4]
    ensures ListedInOrder(t, known, bs)
  {
    forall k | 0 < k < 6 ensures bs[k - 1] in bs[..k] { assert bs[..k][k - 1] == bs[k - 1]; }
  }

  lemma InitReady(net: Net)
    ensures Ready(net, InitSys(net)) && Unlocked(InitSys(net)) && InitSys(net).Keys == net.honest
  {
    InitInv(net);
  }

  lemma HeadOf(t: Tree, q: set<BlockId>, b: BlockId, c: BlockId, g: BlockId)
    requires b in q && ChainAt(t, q, b, c, g)
    ensures b in Heads(t, q)
  {
  }
}
