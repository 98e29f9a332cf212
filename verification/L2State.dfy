/** The L2 checkpoint service of one validator as a state machine.  One event is one
    critical section of the service, so a run interleaves its handlers freely. */
module L2State {
  import opened BlockTree

  type PeerId = nat   // peers numbered in the order of their id strings
  type Signature = int

  const STEP_PREPARE: nat := 1
  const WALK_LIMIT: nat := 1024

  datatype VotePayload = VotePayload(block: BlockId, parent: BlockId, height: int, step: nat, peer: PeerId)
  datatype VoteMsg = VoteMsg(payload: VotePayload, sig: Signature)
  datatype VoteRecord = VoteRecord(msg: VoteMsg, received: int)
  datatype QC = QC(block: BlockId, parent: BlockId, height: int, step: nat, votes: seq<VoteMsg>)
  datatype Meta = Meta(height: int, parent: BlockId)

  /** A call into the attached L3 service. */
  datatype L3Note =
    | QCNote(parent: BlockId, child: BlockId, weight: nat)
    | CommitNote(block: BlockId, parent: BlockId, height: int)

  /** What is fixed for a run: quorum size, vote expiry, and which signatures verify. */
  datatype Config = Config(quorum: nat, expiry: int, sigOk: VoteMsg -> bool)

  /** The last four fields are history and control state: blocks this validator cast a vote
      for, commit checks and L3 notices still owed by a running storeQC, calls made to L3. */
  datatype L2State = L2State(
    votes: map<BlockId, map<PeerId, VoteRecord>>,
    qcs: map<BlockId, QC>,
    blocks: map<BlockId, Meta>,
    childQCs: KidTable,
    committed: map<BlockId, int>,
    sentVote: set<BlockId>,
    lockedBlk: BlockId,
    lockedH: int,
    pending: set<BlockId>,
    cast: set<BlockId>,
    todo: set<BlockId>,
    owed: set<BlockId>,
    notes: seq<L3Note>)

  function Init(): L2State {
    L2State(map[], map[], map[], map[], map[], {}, NONE, -1, {}, {}, {}, {}, [])
  }

  // ---------- message checks ----------

  predicate VerifyVote(cfg: Config, v: VoteMsg) {
    v.payload.step == STEP_PREPARE && v.payload.block != NONE && cfg.sigOk(v)
  }

  predicate DistinctPeers(votes: seq<VoteMsg>) {
    forall i, j :: 0 <= i < j < |votes| ==> votes[i].payload.peer != votes[j].payload.peer
  }

  predicate VerifyQC(cfg: Config, qc: QC) {
    qc.step == STEP_PREPARE && |qc.votes| >= cfg.quorum && DistinctPeers(qc.votes) &&
    forall v :: v in qc.votes ==>
      v.payload.block == qc.block && v.payload.parent == qc.parent && VerifyVote(cfg, v)
  }

  // ---------- voting rule and lock ----------

  /** The block k recorded parent links above b; NONE once a block's record is missing. */
  function Link(blocks: map<BlockId, Meta>, b: BlockId, k: nat): BlockId
    decreases k
  {
    if k == 0 then b else if b != NONE && b in blocks then Link(blocks, blocks[b].parent, k - 1) else NONE
  }

  /** The lock is found on b's recorded branch within the walk limit. */
  ghost predicate Walks(blocks: map<BlockId, Meta>, b: BlockId, target: BlockId) {
    target != NONE && exists k: nat :: k < WALK_LIMIT && Link(blocks, b, k) == target
  }

  ghost predicate ExtendsLocked(s: L2State, b: BlockId) {
    b == NONE || s.lockedBlk == NONE || Walks(s.blocks, b, s.lockedBlk)
  }

  ghost predicate SafeToVote(s: L2State, parent: BlockId) {
    || parent == NONE
    || s.lockedBlk == NONE
    || parent == s.lockedBlk
    || (ExtendsLocked(s, parent) &&
        if parent in s.blocks then s.blocks[parent].height >= s.lockedH
        else parent in s.qcs && s.qcs[parent].height >= s.lockedH)
  }

  /** The greater of the certificate's height and the one on record. */
  function LockHeight(s: L2State, b: BlockId, qcHeight: int): (r: int)
    ensures r >= qcHeight && (b in s.blocks ==> r >= s.blocks[b].height)
    ensures r == qcHeight || (b in s.blocks && r == s.blocks[b].height)
  {
    if b in s.blocks && s.blocks[b].height > qcHeight then s.blocks[b].height else qcHeight
  }

  /** updateLockForQCLocked moves the lock to b. */
  ghost predicate TakesLock(s: L2State, b: BlockId, qcHeight: int) {
    s.lockedBlk == NONE || (LockHeight(s, b, qcHeight) > s.lockedH && ExtendsLocked(s, b))
  }

  // ---------- certificates and commits ----------

  type KidTable = map<BlockId, set<BlockId>>

  function Kids(kids: KidTable, b: BlockId): set<BlockId> {
    if b in kids then kids[b] else {}
  }

  function AddMeta(s: L2State, b: BlockId, parent: BlockId, height: int): L2State {
    if b in s.blocks then s else s.(blocks := s.blocks[b := Meta(height, parent)])
  }

  function Grandparent(s: L2State, parent: BlockId): BlockId {
    if parent != NONE && parent in s.blocks then s.blocks[parent].parent else NONE
  }

  /** The critical section of storeQC. */
  ghost function StoreQC(s: L2State, qc: QC): L2State {
    if qc.block in s.qcs then s
    else
      var takes := TakesLock(s, qc.block, qc.height);
      s.(qcs := s.qcs[qc.block := qc],
         childQCs := if qc.parent == NONE then s.childQCs
                     else s.childQCs[qc.parent := Kids(s.childQCs, qc.parent) + {qc.block}],
         lockedBlk := if takes then qc.block else s.lockedBlk,
         lockedH := if takes then LockHeight(s, qc.block, qc.height) else s.lockedH,
         todo := s.todo + ({qc.parent, qc.block, Grandparent(s, qc.parent)} - {NONE}),
         owed := if qc.parent == NONE then s.owed else s.owed + {qc.block})
  }

  ghost predicate KidsAt(kids: KidTable, certified: set<BlockId>, b: BlockId, c: BlockId, g: BlockId) {
    c in Kids(kids, b) && c in certified && g in Kids(kids, c) && g in certified
  }

  /** checkCommitFor finds a certified grandchild of b in the child table. */
  ghost predicate GrandChain(kids: KidTable, certified: set<BlockId>, b: BlockId) {
    exists c, g :: KidsAt(kids, certified, b, c, g)
  }

  ghost function CheckCommit(s: L2State, b: BlockId): L2State {
    var s1 := s.(todo := s.todo - {b});
    if b == NONE || b in s.committed || b !in s.qcs || !GrandChain(s.childQCs, s.qcs.Keys, b) || b !in s.blocks then s1
    else s1.(committed := s.committed[b := s.blocks[b].height],
             notes := s.notes + [CommitNote(b, s.blocks[b].parent, s.blocks[b].height)])
  }

  predicate IsLeast(peers: set<PeerId>, p: PeerId) {
    p in peers && forall q :: q in peers ==> p <= q
  }

  lemma {:induction false} LeastExists(peers: set<PeerId>)
    requires peers != {}
    ensures exists p :: IsLeast(peers, p)
  {
    var p :| p in peers;
    var rest := peers - {p};
    if rest == {} {
      assert peers == {p};
      assert IsLeast(peers, p);
    } else {
      LeastExists(rest);
      var m :| IsLeast(rest, m);
      forall q | q in peers ensures (if m <= p then m else p) <= q { assert q == p || q in rest; }
      assert IsLeast(peers, if m <= p then m else p);
    }
  }

  ghost function Least(peers: set<PeerId>): (p: PeerId)
    requires peers != {}
    ensures p in peers && forall q :: q in peers ==> p <= q
  {
    LeastExists(peers);
    var p :| IsLeast(peers, p);
    p
  }

  /** onCommit: a commit announced by the network is recorded as it stands. */
  function LearnCommit(s: L2State, b: BlockId, height: int): L2State {
    if b in s.committed then s
    else
      var known := b in s.blocks;
      s.(committed := s.committed[b := height],
         notes := if b == NONE then s.notes
                  else s.notes + [CommitNote(b, if known then s.blocks[b].parent else NONE,
                                             if known && s.blocks[b].height > 0 then s.blocks[b].height else height)])
  }

  /** The messages of the given peers of a vote table, by ascending peer. */
  ghost function Messages(table: map<PeerId, VoteRecord>, peers: set<PeerId>): seq<VoteMsg>
    requires peers <= table.Keys
  {
    if peers == {} then [] else [table[Least(peers)].msg] + Messages(table, peers - {Least(peers)})
  }

  /** The certificate buildAndBroadcastQC makes from the vote table of b. */
  ghost function BuildQC(s: L2State, b: BlockId): QC
    requires b in s.votes && b in s.blocks
  {
    QC(b, s.blocks[b].parent, s.blocks[b].height, STEP_PREPARE, Messages(s.votes[b], s.votes[b].Keys))
  }

  function RecordVote(s: L2State, v: VoteMsg, now: int): L2State {
    var b, p := v.payload.block, v.payload.peer;
    var table := if b in s.votes then s.votes[b] else map[];
    if p in table then s
    else AddMeta(s.(votes := s.votes[b := table[p := VoteRecord(v, now)]]), b, v.payload.parent, v.payload.height)
  }

  function Cast(s: L2State, b: BlockId): L2State {
    s.(pending := s.pending - {b}, sentVote := s.sentVote + {b}, cast := s.cast + {b})
  }

  /** markVoteIfSafe: vote now, or wait until it is safe to. */
  ghost function Marked(s: L2State, b: BlockId, parent: BlockId): L2State {
    if b in s.sentVote then s else if !SafeToVote(s, parent) then s.(pending := s.pending + {b}) else Cast(s, b)
  }

  // ---------- pruning ----------

  function Fresh(cfg: Config, table: map<PeerId, VoteRecord>, now: int): map<PeerId, VoteRecord> {
    map p | p in table && !(cfg.expiry > 0 && now - table[p].received > cfg.expiry) :: table[p]
  }

  function FreshVotes(cfg: Config, votes: map<BlockId, map<PeerId, VoteRecord>>, now: int): map<BlockId, map<PeerId,
      VoteRecord>> {
    map b | b in votes && Fresh(cfg, votes[b], now) != map[] :: Fresh(cfg, votes[b], now)
  }

  function FreshKids(kids: KidTable, certified: set<BlockId>, done: set<BlockId>): KidTable {
    map p | p in kids && p !in done && kids[p] * certified != {} :: kids[p] * certified
  }

  function Prune(cfg: Config, s: L2State, now: int): L2State {
    var done := s.committed.Keys;
    s.(votes := FreshVotes(cfg, s.votes, now), sentVote := s.sentVote - done, blocks := s.blocks - done,
       pending := s.pending - done, childQCs := FreshKids(s.childQCs, s.qcs.Keys, done))
  }

  // ---------- events ----------

  datatype Event =
    | BlockInfo(block: BlockId, parent: BlockId, height: int)
    | SeeBlock(block: BlockId, parent: BlockId, height: int)
    | MarkVote(block: BlockId, parent: BlockId, height: int)
    | RetryVote(block: BlockId)
    | DropPending(block: BlockId)
    | TakeVote(vote: VoteMsg, now: int)
    | MakeQC(block: BlockId)
    | DeliverQC(qc: QC)
    | CheckFor(block: BlockId)
    | NotifyL3(block: BlockId)
    | NetCommit(block: BlockId, height: int)
    | PruneAt(now: int)

  /** When the service can perform the event. */
  ghost predicate Legal(cfg: Config, s: L2State, e: Event) {
    match e
    case BlockInfo(b, _, _) => b != NONE
    case SeeBlock(b, _, _) => b != NONE
    case MarkVote(b, _, _) => b != NONE
    case RetryVote(b) => b in s.pending && b !in s.sentVote && b in s.blocks && SafeToVote(s, s.blocks[b].parent)
    case DropPending(b) => b in s.pending && (b in s.sentVote || b !in s.blocks)
    case TakeVote(v, _) => VerifyVote(cfg, v)
    case MakeQC(b) => b in s.votes && b in s.blocks && b !in s.qcs && |s.votes[b]| >= cfg.quorum
    case DeliverQC(qc) => VerifyQC(cfg, qc)
    case CheckFor(_) => true
    case NotifyL3(b) => b in s.owed && b in s.qcs
    case NetCommit(_, _) => true
    case PruneAt(_) => true
  }

  ghost function Apply(cfg: Config, s: L2State, e: Event): L2State
    requires Legal(cfg, s, e)
  {
    match e
    case BlockInfo(b, p, h) => s.(blocks := s.blocks[b := Meta(h, p)])
    case SeeBlock(b, p, h) => AddMeta(s, b, p, h)
    case MarkVote(b, p, _) => Marked(s, b, p)
    case RetryVote(b) => Cast(s, b)
    case DropPending(b) => s.(pending := s.pending - {b})
    case TakeVote(v, now) => RecordVote(s, v, now)
    case MakeQC(b) => StoreQC(s, BuildQC(s, b))
    case DeliverQC(qc) => StoreQC(AddMeta(s, qc.block, qc.parent, qc.height), qc)
    case CheckFor(b) => CheckCommit(s, b)
    case NotifyL3(b) => s.(owed := s.owed - {b}, notes := s.notes + [QCNote(s.qcs[b].parent, b, |s.qcs[b].votes|)])
    case NetCommit(b, h) => LearnCommit(s, b, h)
    case PruneAt(now) => Prune(cfg, s, now)
  }

  /** The state after a run, and that every event of the run was possible. */
  ghost predicate LegalRun(cfg: Config, s: L2State, es: seq<Event>)
    decreases |es|, 0
  {
    es == [] || (LegalRun(cfg, s, es[..|es| - 1]) && Legal(cfg, Run(cfg, s, es[..|es| - 1]), es[|es| - 1]))
  }

  ghost function Run(cfg: Config, s: L2State, es: seq<Event>): L2State
    requires LegalRun(cfg, s, es)
    decreases |es|, 1
  {
    if es == [] then s else Apply(cfg, Run(cfg, s, es[..|es| - 1]), es[|es| - 1])
  }

  lemma RunSnoc(cfg: Config, s: L2State, es: seq<Event>, e: Event)
    requires LegalRun(cfg, s, es) && Legal(cfg, Run(cfg, s, es), e)
    ensures LegalRun(cfg, s, es + [e]) && Run(cfg, s, es + [e]) == Apply(cfg, Run(cfg, s, es), e)
  {
    assert (es + [e])[..|es|] == es;
  }
}
