/** A network of L2 validators: honest ones run the service, faulty ones sign what they like. */
module L2Network {
  import opened BlockTree
  import opened L2State
  import opened L2Invariants
  import opened L2Certificates

  /** What is fixed for a run of the network. */
  datatype Net = Net(cfg: Config, tree: Tree, honest: set<PeerId>, faulty: set<PeerId>) {
    ghost predicate Sound() {
      cfg.quorum >= 1 && tree.WellFormed()
    }

    /** At most a third of the validators but one are faulty, and the quorum is HotStuff's. */
    ghost predicate FaultBound() {
      honest !! faulty && |faulty| <= (|honest + faulty| - 1) / 3
      && cfg.quorum == HotstuffQuorumSize(|honest + faulty|)
    }
  }

  type Sys = map<PeerId, L2State>
  datatype Step = Step(who: PeerId, event: Event)

  ghost function InitSys(net: Net): Sys {
    map i | i in net.honest :: Init()
  }

  /** Signatures are unforgeable: a vote carrying an honest validator's name was cast by it. */
  ghost predicate Authentic(net: Net, sys: Sys, v: VoteMsg) {
    v.payload.peer in net.honest + net.faulty
    && (v.payload.peer in net.honest && v.payload.peer in sys ==> v.payload.block in sys[v.payload.peer].cast)
  }

  ghost predicate WireOk(net: Net, sys: Sys, e: Event) {
    match e
    case TakeVote(v, _) => Authentic(net, sys, v)
    case DeliverQC(qc) => forall v :: v in qc.votes ==> Authentic(net, sys, v)
    case _ => true
  }

  ghost predicate CanStep(net: Net, sys: Sys, st: Step) {
    st.who in sys && Legal(net.cfg, sys[st.who], st.event) && Told(net.tree, st.event) && WireOk(net, sys, st.event)
  }

  ghost function Next(net: Net, sys: Sys, st: Step): Sys
    requires CanStep(net, sys, st)
  {
    sys[st.who := Apply(net.cfg, sys[st.who], st.event)]
  }

  ghost predicate CanRun(net: Net, sys: Sys, steps: seq<Step>)
    decreases |steps|, 0
  {
    steps == [] || (CanRun(net, sys, steps[..|steps| - 1])
                    && CanStep(net, After(net, sys, steps[..|steps| - 1]), steps[|steps| - 1]))
  }

  ghost function After(net: Net, sys: Sys, steps: seq<Step>): Sys
    requires CanRun(net, sys, steps)
    decreases |steps|, 1
  {
    if steps == [] then sys else Next(net, After(net, sys, steps[..|steps| - 1]), steps[|steps| - 1])
  }

  // ---------- every certificate is backed by a quorum of cast votes ----------

  ghost predicate Backing(net: Net, sys: Sys, b: BlockId, signers: set<PeerId>) {
    signers <= net.honest + net.faulty && |signers| >= net.cfg.quorum
    && forall p :: p in signers && p in sys ==> b in sys[p].cast
  }

  ghost predicate Backed(net: Net, sys: Sys, b: BlockId) {
    exists signers :: Backing(net, sys, b, signers)
  }

  ghost predicate VotesAuthentic(net: Net, sys: Sys, votes: Votes) {
    forall b, p :: b in votes && p in votes[b] ==> Authentic(net, sys, votes[b][p].msg)
  }

  ghost predicate NodeInv(net: Net, sys: Sys, s: L2State) {
    && Basic(net.cfg, s) && Truth(net.tree, s)
    && VotesAuthentic(net, sys, s.votes)
    && forall b :: b in s.qcs ==> Backed(net, sys, b)
  }

  ghost predicate SysInv(net: Net, sys: Sys) {
    sys.Keys == net.honest && forall i :: i in sys ==> NodeInv(net, sys, sys[i])
  }

  /** Votes once cast stay cast. */
  lemma StepKeepsCast(cfg: Config, s: L2State, e: Event)
    requires Legal(cfg, s, e)
    ensures s.cast <= Apply(cfg, s, e).cast
  {
    hide SafeToVote, TakesLock, Prune, RecordVote, GrandChain;
    if Quiet(e) { QuietFrame(cfg, s, e); }
  }

  ghost predicate Grows(sys: Sys, sys': Sys) {
    sys'.Keys == sys.Keys && forall i :: i in sys ==> sys[i].cast <= sys'[i].cast
  }

  lemma BackedStays(net: Net, sys: Sys, sys': Sys, b: BlockId)
    requires Grows(sys, sys') && Backed(net, sys, b)
    ensures Backed(net, sys', b)
  {
    var signers :| Backing(net, sys, b, signers);
    assert Backing(net, sys', b, signers);
  }

  lemma NodeInvStays(net: Net, sys: Sys, sys': Sys, s: L2State)
    requires Grows(sys, sys') && sys.Keys == net.honest && NodeInv(net, sys, s)
    ensures NodeInv(net, sys', s)
  {
    hide Basic, Truth, Backed;
    forall b | b in s.qcs ensures Backed(net, sys', b) { BackedStays(net, sys, sys', b); }
  }

  /** A certificate whose votes are verified and authentic is backed. */
  lemma AuthenticBacks(net: Net, sys: Sys, qc: QC)
    requires VerifyQC(net.cfg, qc) && WireOk(net, sys, DeliverQC(qc)) && sys.Keys == net.honest
    ensures Backed(net, sys, qc.block)
  {
    DistinctSigners(qc.votes);
    var signers := Signers(qc.votes);
    forall p | p in signers ensures p in net.honest + net.faulty && (p in sys ==> qc.block in sys[p].cast) {
      var v :| v in qc.votes && v.payload.peer == p;
      assert Authentic(net, sys, v);
    }
    assert Backing(net, sys, qc.block, signers);
  }

  lemma BuiltIsAuthentic(net: Net, sys: Sys, s: L2State, b: BlockId)
    requires sys.Keys == net.honest && NodeInv(net, sys, s) && Legal(net.cfg, s, MakeQC(b))
    ensures Backed(net, sys, b)
  {
    hide Backed, Messages;
    BuiltQCIsAccepted(net.cfg, net.tree, s, b);
    MessagesHold(s.votes[b], s.votes[b].Keys);
    AuthenticBacks(net, sys, BuildQC(s, b));
  }

  lemma StepVotes(net: Net, sys: Sys, s: L2State, e: Event)
    requires VotesAuthentic(net, sys, s.votes) && Legal(net.cfg, s, e) && WireOk(net, sys, e)
    ensures VotesAuthentic(net, sys, Apply(net.cfg, s, e).votes)
  {
    hide SafeToVote, TakesLock, Prune, RecordVote, GrandChain, VotesAuthentic;
    match e
    case TakeVote(v, now) => TakeVotes(net, sys, s, v, now);
    case PruneAt(now) => PruneVotes(net, sys, s, now);
    case _ => assert Apply(net.cfg, s, e).votes == s.votes;
  }

  lemma TakeVotes(net: Net, sys: Sys, s: L2State, v: VoteMsg, now: int)
    requires VotesAuthentic(net, sys, s.votes) && Authentic(net, sys, v)
    ensures VotesAuthentic(net, sys, RecordVote(s, v, now).votes)
  {
    hide Authentic;
  }

  lemma PruneVotes(net: Net, sys: Sys, s: L2State, now: int)
    requires VotesAuthentic(net, sys, s.votes)
    ensures VotesAuthentic(net, sys, Prune(net.cfg, s, now).votes)
  {
    hide Authentic;
  }

  lemma StepCerts(net: Net, sys: Sys, s: L2State, e: Event)
    requires sys.Keys == net.honest && NodeInv(net, sys, s) && Legal(net.cfg, s, e) && WireOk(net, sys, e)
    ensures forall b :: b in Apply(net.cfg, s, e).qcs ==> Backed(net, sys, b)
  {
    hide SafeToVote, TakesLock, Prune, RecordVote, GrandChain, VotesAuthentic, Backed, Basic, Truth, VerifyQC;
    match e
    case DeliverQC(qc) => AuthenticBacks(net, sys, qc);
    case MakeQC(b) => BuiltIsAuthentic(net, sys, s, b);
    case _ => if Quiet(e) { QuietFrame(net.cfg, s, e); }
  }

  lemma StepKeepsSysInv(net: Net, sys: Sys, st: Step)
    requires net.Sound() && SysInv(net, sys) && CanStep(net, sys, st)
    ensures SysInv(net, Next(net, sys, st)) && Grows(sys, Next(net, sys, st))
  {
    hide NodeInv, Apply, Legal, Told, WireOk;
    var s := sys[st.who];
    var s', sys' := Apply(net.cfg, s, st.event), Next(net, sys, st);
    StepKeepsCast(net.cfg, s, st.event);
    StepNodeInv(net, sys, st);
    forall i | i in sys' ensures NodeInv(net, sys', sys'[i]) {
      if i != st.who { NodeInvStays(net, sys, sys', sys[i]); } else { NodeInvStays(net, sys, sys', s'); }
    }
  }

  lemma StepNodeInv(net: Net, sys: Sys, st: Step)
    requires net.Sound() && SysInv(net, sys) && CanStep(net, sys, st)
    ensures NodeInv(net, sys, Apply(net.cfg, sys[st.who], st.event))
  {
    hide Apply, Legal, Told, WireOk, Basic, Truth, Backed, VotesAuthentic;
    var s := sys[st.who];
    StepKeepsBasic(net.cfg, s, st.event);
    StepKeepsTruth(net.cfg, net.tree, s, st.event);
    StepVotes(net, sys, s, st.event);
    StepCerts(net, sys, s, st.event);
  }

  lemma InitInv(net: Net)
    ensures SysInv(net, InitSys(net))
  {
  }
}
