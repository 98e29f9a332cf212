/** The L2 service of one validator, updated in place by re-entrant handlers.  Its history of
    events is kept as a ghost trace, and its tables are the state that trace leads to. */
module L2Service {
  import opened BlockTree
  import opened L2State
  import Spec = L2State
  import opened L2Invariants
  import opened L2Certificates
  import opened L2Commits
  import opened L2Decisions
  import opened Options

  /** The record one more event leads to. */
  lemma Extend(cfg: Config, es: seq<Event>, s: L2State, e: Event)
    requires LegalRun(cfg, Init(), es) && Run(cfg, Init(), es) == s && Legal(cfg, s, e)
    ensures LegalRun(cfg, Init(), es + [e]) && Run(cfg, Init(), es + [e]) == Apply(cfg, s, e)
  {
    hide Legal, Apply;
    RunSnoc(cfg, Init(), es, e);
  }

  lemma ExtendClean(cfg: Config, t: Tree, es: seq<Event>, s: L2State, e: Event)
    requires LegalRun(cfg, Init(), es) && Run(cfg, Init(), es) == s && Legal(cfg, s, e)
    requires CleanRun(cfg, t, es) && Clean(t, s, e)
    ensures LegalRun(cfg, Init(), es + [e]) && CleanRun(cfg, t, es + [e])
  {
    hide Legal, Apply, Clean;
    RunSnoc(cfg, Init(), es, e);
    assert (es + [e])[..|es|] == es;
  }

  lemma {:induction false} LinkAdd(blocks: Records, b: BlockId, j: nat, k: nat)
    ensures Link(blocks, b, j + k) == Link(blocks, Link(blocks, b, j), k)
    decreases j
  {
    if j > 0 {
      if b != NONE && b in blocks { LinkAdd(blocks, blocks[b].parent, j - 1, k); } else { LinkOfNone(blocks, k); }
    }
  }

  lemma LinkOfNone(blocks: Records, k: nat)
    ensures Link(blocks, NONE, k) == NONE
  {
  }

  /** No block waiting for a safe vote is safe to vote for. */
  ghost predicate Settled(s: L2State) {
    forall b :: b in s.pending ==> b in s.blocks && b !in s.sentVote && !SafeToVote(s, s.blocks[b].parent)
  }

  /** A block whose votes reach the quorum, and that has no certificate, is recorded. */
  ghost predicate RecordedQuorum(s: L2State, quorum: nat, b: BlockId) {
    b in s.votes && |s.votes[b]| >= quorum && b !in s.qcs ==> b in s.blocks
  }

  /** What the voting rule reads. */
  ghost predicate SameWaiting(s: L2State, s': L2State) {
    s'.pending == s.pending && s'.sentVote == s.sentVote && s'.blocks == s.blocks && s'.qcs == s.qcs
    && s'.lockedBlk == s.lockedBlk && s'.lockedH == s.lockedH
  }

  lemma SameSafety(s: L2State, s': L2State)
    requires s'.blocks == s.blocks && s'.qcs == s.qcs && s'.lockedBlk == s.lockedBlk && s'.lockedH == s.lockedH
    ensures forall p :: SafeToVote(s, p) == SafeToVote(s', p)
  {
  }

  lemma SettledFrame(s: L2State, s': L2State)
    requires Settled(s) && SameWaiting(s, s')
    ensures Settled(s')
  {
    SameSafety(s, s');
  }

  lemma LockIgnoresCerts(s: L2State, s': L2State, b: BlockId, h: int)
    requires s'.blocks == s.blocks && s'.lockedBlk == s.lockedBlk && s'.lockedH == s.lockedH
    ensures TakesLock(s, b, h) == TakesLock(s', b, h) && LockHeight(s, b, h) == LockHeight(s', b, h)
  {
  }

  lemma MarkFrame(s: L2State, b: BlockId, parent: BlockId, height: int)
    ensures var s' := Marked(AddMeta(s, b, parent, height), b, parent);
      s'.qcs == s.qcs && s'.todo == s.todo && s'.owed == s.owed
      && b in s'.blocks && s'.blocks[b] == if b in s.blocks then s.blocks[b] else Meta(height, parent)
  {
    MarkedFrame(AddMeta(s, b, parent, height), b, parent);
    hide Marked;
  }

  lemma MarkedFrame(s: L2State, b: BlockId, parent: BlockId)
    ensures var s' := Marked(s, b, parent);
      s'.qcs == s.qcs && s'.todo == s.todo && s'.owed == s.owed && s'.blocks == s.blocks
  {
    hide SafeToVote;
  }

  /** Between prunes, what a table holds stays in it. */
  ghost predicate Grew(s: L2State, s': L2State) {
    && CertsGrow(s.qcs, s'.qcs) && RecordsGrow(s.blocks, s'.blocks) && VotesGrow(s.votes, s'.votes)
    && s.committed.Keys <= s'.committed.Keys && s.sentVote <= s'.sentVote && s.cast <= s'.cast
  }

  ghost predicate CertsGrow(q: Certs, q': Certs) {
    forall b :: b in q ==> b in q' && q'[b] == q[b]
  }

  ghost predicate RecordsGrow(q: Records, q': Records) {
    forall b :: b in q ==> b in q' && q'[b] == q[b]
  }

  ghost predicate VotesGrow(v: Votes, v': Votes) {
    forall b, p :: b in v && p in v[b] ==> b in v' && p in v'[b] && v'[b][p] == v[b][p]
  }

  type Signer = VotePayload -> Option<Signature>

  /** The payload of a validator's vote for a recorded block. */
  function Ballot(s: L2State, self: PeerId, b: BlockId): VotePayload
    requires b in s.blocks
  {
    VotePayload(b, s.blocks[b].parent, s.blocks[b].height, STEP_PREPARE, self)
  }

  /** The vote a validator signs for the payload, if it can sign one that verifies, is filed. */
  ghost predicate Filed(cfg: Config, sign: Signer, s: L2State, payload: VotePayload) {
    sign(payload).Some? && VerifyVote(cfg, VoteMsg(payload, sign(payload).value)) ==>
      payload.block in s.votes && payload.peer in s.votes[payload.block]
  }

  /** The tables grew, and every vote decided on in between was signed and filed. */
  ghost predicate Cascaded(cfg: Config, self: PeerId, sign: Signer, s: L2State, s': L2State) {
    && Grew(s, s')
    && forall b :: b in s'.cast && b !in s.cast ==> b in s'.blocks && Filed(cfg, sign, s', Ballot(s', self, b))
  }

  lemma CascadedTrans(cfg: Config, self: PeerId, sign: Signer, s: L2State, s': L2State, s'': L2State)
    requires Cascaded(cfg, self, sign, s, s') && Cascaded(cfg, self, sign, s', s'')
    ensures Cascaded(cfg, self, sign, s, s'')
  {
    forall b | b in s'.cast && b !in s.cast ensures b in s''.blocks && Filed(cfg, sign, s'', Ballot(s'', self, b)) {
      assert Filed(cfg, sign, s', Ballot(s', self, b));
      assert Ballot(s'', self, b) == Ballot(s', self, b);
    }
    hide Filed, VerifyVote;
  }

  lemma Undecided(cfg: Config, self: PeerId, sign: Signer, s: L2State, s': L2State)
    requires Grew(s, s') && s'.cast == s.cast
    ensures Cascaded(cfg, self, sign, s, s')
  {
    hide Grew;
  }

  lemma CascadedKeeps(cfg: Config, self: PeerId, sign: Signer, s: L2State, s': L2State, b: BlockId)
    requires Cascaded(cfg, self, sign, s, s')
    ensures b in s.qcs ==> b in s'.qcs && s'.qcs[b] == s.qcs[b]
    ensures b in s.blocks ==> b in s'.blocks && s'.blocks[b] == s.blocks[b]
    ensures b in s.sentVote ==> b in s'.sentVote
    ensures b in s.cast ==> b in s'.cast
    ensures forall p :: b in s.votes && p in s.votes[b] ==>
      b in s'.votes && p in s'.votes[b] && s'.votes[b][p] == s.votes[b][p]
  {
  }

  lemma CascadedGrew(cfg: Config, self: PeerId, sign: Signer, s: L2State, s': L2State)
    requires Cascaded(cfg, self, sign, s, s')
    ensures Grew(s, s')
  {
  }

  lemma GrewTrans(s: L2State, s': L2State, s'': L2State)
    requires Grew(s, s') && Grew(s', s'')
    ensures Grew(s, s'')
  {
  }

  lemma AddGrew(s: L2State, b: BlockId, parent: BlockId, height: int)
    ensures Grew(s, AddMeta(s, b, parent, height)) && AddMeta(s, b, parent, height).cast == s.cast
  {
  }

  /** Marking records the block, and decides on the vote or makes it wait. */
  lemma MarkGrew(s: L2State, b: BlockId, parent: BlockId, height: int)
    ensures var s' := Marked(AddMeta(s, b, parent, height), b, parent);
      Grew(s, s') && b in s'.blocks && (b in s'.sentVote || b in s'.pending)
      && (b !in s.sentVote ==> if SafeToVote(AddMeta(s, b, parent, height), parent)
          then b in s'.cast && b in s'.sentVote else b in s'.pending && b !in s'.sentVote)
  {
    hide SafeToVote;
  }

  lemma StoreGrew(s: L2State, qc: QC)
    ensures Grew(s, StoreQC(s, qc)) && StoreQC(s, qc).cast == s.cast
  {
    hide TakesLock;
  }

  lemma CheckGrew(s: L2State, b: BlockId)
    ensures Grew(s, CheckCommit(s, b)) && CheckCommit(s, b).cast == s.cast
  {
    hide GrandChain;
  }

  lemma RecordGrew(s: L2State, v: VoteMsg, now: int)
    ensures Grew(s, RecordVote(s, v, now)) && RecordVote(s, v, now).cast == s.cast
  {
  }

  /** What a verified vote leaves behind: it is filed unless its signer's vote for the block was
      there before, and a table it brings to the quorum has a certificate. */
  ghost predicate Counted(cfg: Config, s: L2State, s': L2State, v: VoteMsg, now: int) {
    var b, p := v.payload.block, v.payload.peer;
    b in s'.votes && p in s'.votes[b] &&
    ((b in s.votes && p in s.votes[b]) ||
     (s'.votes[b][p] == VoteRecord(v, now) && b in s'.blocks &&
      ((if b in s.votes then |s.votes[b]| else 0) + 1 >= cfg.quorum ==> b in s'.qcs)))
  }

  lemma ScanGrew(s: L2State, s': L2State)
    requires s'.qcs == s.qcs && s'.blocks == s.blocks && s'.votes == s.votes && s'.committed == s.committed
    requires s.sentVote <= s'.sentVote && s.cast <= s'.cast
    ensures Grew(s, s')
  {
  }

  /** A claimed vote that is then published counts as decided on and filed. */
  lemma ClaimCascaded(cfg: Config, self: PeerId, sign: Signer, s: L2State, s': L2State, s'': L2State, b: BlockId)
    requires Grew(s, s') && s'.cast == s.cast + {b} && b in s'.blocks && Cascaded(cfg, self, sign, s', s'')
    requires Filed(cfg, sign, s'', Ballot(s', self, b))
    ensures Cascaded(cfg, self, sign, s, s'')
  {
    hide Filed, VerifyVote;
  }

  /** The signer's vote for the block is in the table. */
  predicate InTable(votes: Votes, v: VoteMsg) {
    v.payload.block in votes && v.payload.peer in votes[v.payload.block]
  }

  lemma RecordCounts(s: L2State, v: VoteMsg, now: int)
    ensures var s', b, p := RecordVote(s, v, now), v.payload.block, v.payload.peer;
      b in s'.votes && p in s'.votes[b]
      && (InTable(s.votes, v) ==> s' == s)
      && (!InTable(s.votes, v) ==> (s'.votes[b][p] == VoteRecord(v, now) && b in s'.blocks
          && |s'.votes[b]| == (if b in s.votes then |s.votes[b]| else 0) + 1))
  {
    var table := if v.payload.block in s.votes then s.votes[v.payload.block] else map[];
    var p := v.payload.peer;
    if p !in table { assert table[p := VoteRecord(v, now)].Keys == table.Keys + {p}; }
  }

  /** L3 is told once of a commit from the network, with the parent and height on record where there are any. */
  ghost predicate Announced(s: L2State, notes: seq<L3Note>, b: BlockId, height: int) {
    var known := b in s.blocks;
    var parent := if known then s.blocks[b].parent else NONE;
    var h := if known && s.blocks[b].height > 0 then s.blocks[b].height else height;
    notes == s.notes + (if b == NONE then [] else [CommitNote(b, parent, h)])
  }

  lemma LearnedFields(s: L2State, b: BlockId, height: int)
    ensures var s' := LearnCommit(s, b, height);
      if b in s.committed then s' == s
      else s' == s.(committed := s.committed[b := height], notes := s'.notes) && Announced(s, s'.notes, b, height)
  {
  }

  ghost predicate OnFile(votes: Votes, b: BlockId, p: PeerId) {
    b in votes && p in votes[b]
  }

  /** What the prune leaves of the vote tables. */
  lemma PrunedVotes(cfg: Config, votes: Votes, now: int)
    ensures var votes' := FreshVotes(cfg, votes, now);
      (forall b, p :: OnFile(votes', b, p) <==>
        OnFile(votes, b, p) && (cfg.expiry <= 0 || now - votes[b][p].received <= cfg.expiry))
      && (forall b, p :: OnFile(votes', b, p) ==> votes'[b][p] == votes[b][p])
      && forall b :: b in votes' ==> votes'[b] != map[]
  {
    forall b, p | OnFile(votes, b, p) && (cfg.expiry <= 0 || now - votes[b][p].received <= cfg.expiry)
      ensures OnFile(FreshVotes(cfg, votes, now), b, p) {
      assert p in Fresh(cfg, votes[b], now);
    }
  }

  /** And of the child tables. */
  lemma PrunedKids(kids: KidTable, certified: set<BlockId>, done: set<BlockId>)
    ensures var kids' := FreshKids(kids, certified, done);
      (forall p :: Kids(kids', p) == if p in done then {} else Kids(kids, p) * certified)
      && forall p :: p in kids' ==> kids'[p] != {}
  {
  }

  lemma PruneFields(cfg: Config, s: L2State, now: int)
    ensures var s', done := Prune(cfg, s, now), s.committed.Keys;
      s'.votes == FreshVotes(cfg, s.votes, now) && s'.childQCs == FreshKids(s.childQCs, s.qcs.Keys, done)
      && s'.blocks == s.blocks - done && s'.sentVote == s.sentVote - done && s'.pending == s.pending - done
      && s'.committed == s.committed && s'.qcs == s.qcs && s'.lockedBlk == s.lockedBlk && s'.lockedH == s.lockedH
      && s'.notes == s.notes
  {
  }

  class L2Service {
    const self: PeerId
    const quorum: nat
    const expiry: int
    const sigOk: VoteMsg -> bool
    const sign: VotePayload -> Option<Signature>   // None when the host has no usable key
    ghost const tree: Tree

    var votes: map<BlockId, map<PeerId, VoteRecord>>
    var qcs: map<BlockId, QC>
    var blocks: map<BlockId, Meta>
    var childQCs: KidTable
    var committed: map<BlockId, int>
    var sentVote: set<BlockId>
    var lockedBlk: BlockId
    var lockedH: int
    var pending: set<BlockId>
    var notes: seq<L3Note>        // calls into the attached L3 service
    ghost var cast: set<BlockId>
    ghost var todo: set<BlockId>
    ghost var owed: set<BlockId>
    ghost var trace: seq<Event>

    ghost function Cfg(): Config {
      Config(quorum, expiry, sigOk)
    }

    ghost function View(): L2State
      reads this
    {
      L2State(votes, qcs, blocks, childQCs, committed, sentVote, lockedBlk, lockedH, pending, cast, todo, owed, notes)
    }

    ghost predicate Valid()
      reads this
    {
      quorum >= 1 && LegalRun(Cfg(), Init(), trace) && Run(Cfg(), Init(), trace) == View()
    }

    /** What a handler may have done since the given state. */
    ghost predicate Since(s: L2State)
      reads this
    {
      Cascaded(Cfg(), self, sign, s, View())
    }

    /** The history so far is one for which commits are claimed exact. */
    ghost predicate CleanHistory()
      reads this
    {
      LegalRun(Cfg(), Init(), trace) && CleanRun(Cfg(), tree, trace)
    }

    constructor (self: PeerId, quorum: int, expiry: int, sigOk: VoteMsg -> bool, sign: VotePayload -> Option<Signature>,
                 ghost tree: Tree)
      ensures Valid() && View() == Init() && CleanHistory() && this.tree == tree
      ensures this.quorum == (if quorum <= 0 then 3 else quorum) && this.expiry == (if expiry <= 0 then 15 else expiry)
      ensures this.sigOk == sigOk && this.sign == sign && this.self == self
    {
      this.self, this.quorum := self, if quorum <= 0 then 3 else quorum;
      this.expiry := if expiry <= 0 then 15 else expiry;
      this.sigOk, this.sign, this.tree := sigOk, sign, tree;
      votes, qcs, blocks, childQCs, committed := map[], map[], map[], map[], map[];
      sentVote, lockedBlk, lockedH, pending, notes := {}, NONE, -1, {}, [];
      cast, todo, owed, trace := {}, {}, {}, [];
    }

    // ---------- checks that only read ----------

    method ExtendsLocked(b: BlockId) returns (r: bool)
      ensures r <==> Spec.ExtendsLocked(View(), b)
    {
      if b == NONE || lockedBlk == NONE { return true; }
      if b == lockedBlk {
        assert Link(blocks, b, 0) == lockedBlk;
        return true;
      }
      var cur, steps: nat := b, 0;
      while steps < WALK_LIMIT && cur != NONE
        invariant steps <= WALK_LIMIT && cur == Link(blocks, b, steps)
        invariant forall k: nat :: k < steps ==> Link(blocks, b, k) != lockedBlk
        decreases WALK_LIMIT - steps
      {
        if cur == lockedBlk { return true; }
        LinkAdd(blocks, b, steps, 1);
        if cur !in blocks {
          forall k: nat | steps < k ensures Link(blocks, b, k) == NONE {
            LinkAdd(blocks, b, steps + 1, k - steps - 1);
            LinkOfNone(blocks, k - steps - 1);
          }
          return false;
        }
        cur := blocks[cur].parent;
        assert Link(blocks, b, steps + 1) == cur by { assert Link(blocks, cur, 0) == cur; }
        steps := steps + 1;
      }
      if cur == NONE {
        forall k: nat | steps <= k ensures Link(blocks, b, k) == NONE {
          LinkAdd(blocks, b, steps, k - steps);
          LinkOfNone(blocks, k - steps);
        }
      }
      return false;
    }

    method SafeToVote(parent: BlockId) returns (r: bool)
      ensures r <==> Spec.SafeToVote(View(), parent)
    {
      if parent == NONE || lockedBlk == NONE || parent == lockedBlk { return true; }
      var above := ExtendsLocked(parent);
      if !above { return false; }
      if parent in blocks { return blocks[parent].height >= lockedH; }
      if parent in qcs { return qcs[parent].height >= lockedH; }
      return false;
    }

    method VerifyVote(v: VoteMsg) returns (ok: bool)
      ensures ok <==> Spec.VerifyVote(Cfg(), v)
    {
      if v.payload.step != STEP_PREPARE { return false; }
      if v.payload.block == NONE { return false; }
      return sigOk(v);
    }

    method VerifyQC(qc: QC) returns (ok: bool)
      ensures ok <==> Spec.VerifyQC(Cfg(), qc)
    {
      if qc.step != STEP_PREPARE { return false; }
      if |qc.votes| < quorum { return false; }
      var seen: set<PeerId> := {};
      for i := 0 to |qc.votes|
        invariant forall j :: 0 <= j < i ==>
          qc.votes[j].payload.block == qc.block && qc.votes[j].payload.parent == qc.parent
          && Spec.VerifyVote(Cfg(), qc.votes[j])
        invariant forall p :: p in seen <==> exists j :: 0 <= j < i && qc.votes[j].payload.peer == p
        invariant DistinctPeers(qc.votes[..i])
      {
        var v := qc.votes[i];
        assert v in qc.votes;
        if v.payload.block != qc.block { return false; }
        if v.payload.parent != qc.parent { return false; }
        var good := VerifyVote(v);
        if !good { return false; }
        if v.payload.peer in seen {
          var j :| 0 <= j < i && qc.votes[j].payload.peer == v.payload.peer;
          return false;
        }
        seen := seen + {v.payload.peer};
      }
      assert qc.votes[..|qc.votes|] == qc.votes;
      return true;
    }

    /** The messages of a vote table, sorted by peer. */
    method ListVotes(table: map<PeerId, VoteRecord>) returns (list: seq<VoteMsg>)
      ensures list == Messages(table, table.Keys)
    {
      list := [];
      var rest := table.Keys;
      while rest != {}
        invariant rest <= table.Keys && Messages(table, table.Keys) == list + Messages(table, rest)
      {
        LeastExists(rest);
        var p :| IsLeast(rest, p);
        assert p == Least(rest);
        list := list + [table[p].msg];
        rest := rest - {p};
      }
    }

    // ---------- one critical section each ----------

    /** Enter an event that has just been performed into the history. */
    ghost method Record(e: Event, s0: L2State)
      requires quorum >= 1 && LegalRun(Cfg(), Init(), trace) && Run(Cfg(), Init(), trace) == s0
      requires Legal(Cfg(), s0, e) && View() == Apply(Cfg(), s0, e)
      modifies this`trace
      ensures Valid() && View() == old(View())
      ensures old(CleanHistory()) && Clean(tree, s0, e) ==> CleanHistory()
    {
      hide Legal, Apply, Clean;
      Extend(Cfg(), trace, s0, e);
      if CleanHistory() && Clean(tree, s0, e) { ExtendClean(Cfg(), tree, trace, s0, e); }
      trace := trace + [e];
    }

    method UpdateBlockInfo(b: BlockId, parent: BlockId, height: int)
      requires Valid()
      modifies this
      ensures Valid()
      ensures View() ==
        if b == NONE then old(View()) else old(View()).(blocks := old(blocks)[b := Meta(height, parent)])
      ensures old(CleanHistory()) && Told(tree, BlockInfo(b, parent, height)) ==> CleanHistory()
    {
      if b == NONE { return; }
      ghost var s0 := View();
      blocks := blocks[b := Meta(height, parent)];
      Record(BlockInfo(b, parent, height), s0);
    }

    /** Keep the first record of a block. */
    method SeeBlockOnce(b: BlockId, parent: BlockId, height: int)
      requires Valid() && b != NONE
      modifies this
      ensures Valid() && View() == AddMeta(old(View()), b, parent, height)
      ensures old(CleanHistory()) && Told(tree, SeeBlock(b, parent, height)) ==> CleanHistory()
    {
      ghost var s0 := View();
      if b !in blocks { blocks := blocks[b := Meta(height, parent)]; }
      Record(SeeBlock(b, parent, height), s0);
    }

    method MarkVoteIfSafe(b: BlockId, parent: BlockId, height: int) returns (r: bool)
      requires Valid() && b != NONE
      modifies this
      ensures Valid() && View() == Marked(old(View()), b, parent)
      ensures r <==> b !in old(sentVote) && Spec.SafeToVote(old(View()), parent)
      ensures old(CleanHistory()) && Told(tree, MarkVote(b, parent, height)) ==> CleanHistory()
    {
      hide Marked, Run, LegalRun, CleanRun, Prune, RecordVote, LearnCommit;
      ghost var s0 := View();
      r := MarkIfSafe(b, parent);
      Record(MarkVote(b, parent, height), s0);
    }

    method MarkIfSafe(b: BlockId, parent: BlockId) returns (r: bool)
      modifies this`pending, this`sentVote, this`cast
      ensures View() == Marked(old(View()), b, parent)
      ensures r <==> b !in old(sentVote) && Spec.SafeToVote(old(View()), parent)
    {
      if b in sentVote { return false; }
      r := SafeToVote(parent);
      hide Spec.SafeToVote;
      if !r {
        pending := pending + {b};
        return;
      }
      pending, sentVote, cast := pending - {b}, sentVote + {b}, cast + {b};
    }

    method UpdateLockForQC(b: BlockId, qcHeight: int)
      modifies this`lockedBlk, this`lockedH
      ensures if TakesLock(old(View()), b, qcHeight)
              then lockedBlk == b && lockedH == LockHeight(old(View()), b, qcHeight)
              else lockedBlk == old(lockedBlk) && lockedH == old(lockedH)
    {
      var height := qcHeight;
      if b in blocks && blocks[b].height > height { height := blocks[b].height; }
      if lockedBlk == NONE {
        lockedBlk, lockedH := b, height;
        return;
      }
      var above := ExtendsLocked(b);
      if height > lockedH && above {
        lockedBlk, lockedH := b, height;
      }
    }

    /** The child table shows a certified child of b with a certified child. */
    method FindGrandChain(b: BlockId) returns (r: bool)
      ensures r <==> GrandChain(childQCs, qcs.Keys, b)
    {
      r := false;
      var kids := Kids(childQCs, b);
      while kids != {} && !r
        invariant r ==> GrandChain(childQCs, qcs.Keys, b)
        invariant !r ==> forall c, g :: KidsAt(childQCs, qcs.Keys, b, c, g) ==> c in kids
      {
        var child :| child in kids;
        if child in qcs {
          var grandkids := Kids(childQCs, child);
          while grandkids != {} && !r
            invariant grandkids <= Kids(childQCs, child)
            invariant r ==> GrandChain(childQCs, qcs.Keys, b)
            invariant !r ==> forall g :: KidsAt(childQCs, qcs.Keys, b, child, g) ==> g in grandkids
          {
            var grand :| grand in grandkids;
            if grand in qcs {
              assert child in Kids(childQCs, b);
              assert KidsAt(childQCs, qcs.Keys, b, child, grand);
              r := true;
            }
            grandkids := grandkids - {grand};
          }
        }
        kids := kids - {child};
      }
    }

    method CheckCommitFor(b: BlockId)
      requires Valid()
      modifies this
      ensures Valid() && View() == CheckCommit(old(View()), b)
      ensures old(CleanHistory()) ==> CleanHistory()
      ensures SameWaiting(old(View()), View()) && owed == old(owed) && todo == old(todo) - {b} && Since(old(View()))
    {
      hide CheckCommit, Run, LegalRun, CleanRun, Prune, RecordVote, LearnCommit, PruneSafe, Cascaded, Grew;
      ghost var s0 := View();
      CheckGrew(s0, b);
      Undecided(Cfg(), self, sign, s0, CheckCommit(s0, b));
      CommitIfChained(b);
      Record(CheckFor(b), s0);
    }

    method CommitIfChained(b: BlockId)
      modifies this`todo, this`committed, this`notes
      ensures View() == CheckCommit(old(View()), b)
      ensures SameWaiting(old(View()), View()) && owed == old(owed) && todo == old(todo) - {b}
    {
      todo := todo - {b};
      if b == NONE || b in committed || b !in qcs { return; }
      var grandChain := FindGrandChain(b);
      if !grandChain || b !in blocks { return; }
      var meta := blocks[b];
      committed := committed[b := meta.height];
      notes := notes + [CommitNote(b, meta.parent, meta.height)];
      hide GrandChain;
    }

    method OnCommit(b: BlockId, height: int)
      requires Valid()
      modifies this
      ensures Valid() && View() == LearnCommit(old(View()), b, height)
      ensures b in old(committed) ==> View() == old(View())
      ensures b !in old(committed) ==>
        View() == old(View()).(committed := old(committed)[b := height], notes := notes)
        && Announced(old(View()), notes, b, height)
    {
      LearnedFields(View(), b, height);
      hide LearnCommit, Run, LegalRun, CleanRun, Prune, RecordVote, CheckCommit;
      ghost var s0 := View();
      EnterCommit(b, height);
      Record(NetCommit(b, height), s0);
    }

    method EnterCommit(b: BlockId, height: int)
      modifies this`committed, this`notes
      ensures View() == LearnCommit(old(View()), b, height)
    {
      if b in committed { return; }
      committed := committed[b := height];
      var parent, l3Height := NONE, height;
      if b in blocks {
        parent := blocks[b].parent;
        if blocks[b].height > 0 { l3Height := blocks[b].height; }
      }
      if b != NONE { notes := notes + [CommitNote(b, parent, l3Height)]; }
    }

    /** Drop the expired votes. */
    method PruneVotes(now: int)
      modifies this`votes
      ensures votes == FreshVotes(Cfg(), old(votes), now)
    {
      var rest := votes.Keys;
      ghost var before := votes;
      while rest != {}
        invariant rest <= before.Keys && votes.Keys <= before.Keys
        invariant forall b :: b in before && b in rest ==> b in votes && votes[b] == before[b]
        invariant forall b :: b in before && b !in rest ==>
          if Fresh(Cfg(), before[b], now) == map[] then b !in votes
          else b in votes && votes[b] == Fresh(Cfg(), before[b], now)
      {
        var b :| b in rest;
        var kept := PruneTable(votes[b], now);
        votes := if kept == map[] then votes - {b} else votes[b := kept];
        rest := rest - {b};
      }
    }

    /** Drop the child tables of committed blocks, and children without a certificate. */
    method PruneKids(done: set<BlockId>)
      modifies this`childQCs
      ensures childQCs == FreshKids(old(childQCs), qcs.Keys, done)
    {
      var rest := childQCs.Keys;
      ghost var before := childQCs;
      while rest != {}
        invariant rest <= before.Keys && childQCs.Keys <= before.Keys
        invariant forall p :: p in before && p in rest ==> p in childQCs && childQCs[p] == before[p]
        invariant forall p :: p in before && p !in rest ==>
          var kids := before[p] * qcs.Keys;
          if p in done || kids == {} then p !in childQCs else p in childQCs && childQCs[p] == kids
      {
        var p :| p in rest;
        var kids := childQCs[p] * qcs.Keys;
        childQCs := if p in done || kids == {} then childQCs - {p} else childQCs[p := kids];
        rest := rest - {p};
      }
    }

    method PruneTable(table: map<PeerId, VoteRecord>, now: int) returns (kept: map<PeerId, VoteRecord>)
      ensures kept == Fresh(Cfg(), table, now)
    {
      kept := table;
      var rest := table.Keys;
      while rest != {}
        invariant rest <= table.Keys
        invariant forall p :: p in kept <==> p in table && (p in rest || p in Fresh(Cfg(), table, now))
        invariant forall p :: p in kept ==> kept[p] == table[p]
      {
        var p :| p in rest;
        if expiry > 0 && now - table[p].received > expiry { kept := kept - {p}; }
        rest := rest - {p};
      }
    }

    method PruneTables(now: int)
      modifies this`votes, this`sentVote, this`blocks, this`pending, this`childQCs
      ensures View() == Prune(Cfg(), old(View()), now)
    {
      PruneVotes(now);
      var done := committed.Keys;
      sentVote, blocks, pending := sentVote - done, blocks - done, pending - done;
      PruneKids(done);
      hide FreshVotes, FreshKids;
    }

    /** Between handlers, with parents certified before children, a prune is safe. */
    lemma QuietPruneKeepsClean()
      requires Valid() && CleanHistory() && ParentClosed(tree, qcs.Keys) && todo == {}
      ensures PruneSafe(tree, TablesOf(View()))
    {
      RunKeepsCommits(Cfg(), tree, trace);
      QuietPruneIsSafe(tree, TablesOf(View()));
    }

    method PruneExpired(now: int)
      requires Valid()
      modifies this
      ensures Valid() && View() == Prune(Cfg(), old(View()), now)
      ensures old(CleanHistory()) && PruneSafe(tree, TablesOf(old(View()))) ==> CleanHistory()
      ensures old(CleanHistory()) && ParentClosed(tree, old(qcs).Keys) && old(todo) == {} ==> CleanHistory()
      ensures forall b, p :: OnFile(votes, b, p) <==>
        OnFile(old(votes), b, p) && (expiry <= 0 || now - old(votes)[b][p].received <= expiry)
      ensures forall b, p :: OnFile(votes, b, p) ==> votes[b][p] == old(votes)[b][p]
      ensures forall b :: b in votes ==> votes[b] != map[]
      ensures blocks == old(blocks) - committed.Keys && sentVote == old(sentVote) - committed.Keys
      ensures pending == old(pending) - committed.Keys && committed == old(committed) && qcs == old(qcs)
      ensures lockedBlk == old(lockedBlk) && lockedH == old(lockedH) && notes == old(notes)
      ensures forall p :: Kids(childQCs, p) == if p in committed then {} else Kids(old(childQCs), p) * qcs.Keys
      ensures forall p :: p in childQCs ==> childQCs[p] != {}
    {
      PrunedVotes(Cfg(), votes, now);
      PrunedKids(childQCs, qcs.Keys, committed.Keys);
      if CleanHistory() && ParentClosed(tree, qcs.Keys) && todo == {} { QuietPruneKeepsClean(); }
      hide CheckCommit, Run, LegalRun, CleanRun, Prune, RecordVote, LearnCommit, PruneSafe, ParentClosed;
      ghost var s0 := View();
      PruneTables(now);
      Record(PruneAt(now), s0);
      PruneFields(Cfg(), s0, now);
      hide Spec.Prune, FreshVotes, FreshKids;
    }

    // ---------- the re-entrant cascade ----------

    lemma BlocksTold(b: BlockId)
      requires Valid() && CleanHistory() && b in blocks
      ensures blocks[b] == Meta(tree.height(b), tree.parent(b))
    {
      RunKeepsCommits(Cfg(), tree, trace);
    }

    lemma OwedAreStored()
      requires Valid()
      ensures owed <= qcs.Keys && NONE !in blocks
    {
      RunKeepsBasic(Cfg(), Init(), trace);
    }

    method DropStale(b: BlockId)
      requires Valid() && b in pending && (b in sentVote || b !in blocks)
      modifies this`pending, this`trace
      ensures Valid() && (old(CleanHistory()) ==> CleanHistory()) && pending == old(pending) - {b}
    {
      hide Run, LegalRun, CleanRun, TakesLock, Prune, RecordVote, CheckCommit, LearnCommit, Spec.SafeToVote;
      ghost var s0 := View();
      pending := pending - {b};
      Record(DropPending(b), s0);
    }

    method Claim(b: BlockId)
      requires Valid() && b in pending && b !in sentVote && b in blocks && Spec.SafeToVote(View(), blocks[b].parent)
      modifies this`pending, this`sentVote, this`cast, this`trace
      ensures Valid() && (old(CleanHistory()) ==> CleanHistory())
      ensures pending == old(pending) - {b} && sentVote == old(sentVote) + {b} && cast == old(cast) + {b}
    {
      hide Run, LegalRun, CleanRun, TakesLock, Prune, RecordVote, CheckCommit, LearnCommit, Spec.SafeToVote;
      ghost var s0 := View();
      pending, sentVote, cast := pending - {b}, sentVote + {b}, cast + {b};
      Record(RetryVote(b), s0);
    }

    /** One pass over the waiting blocks: drop the stale ones, and claim the first that is safe. */
    method ScanPending() returns (found: Option<BlockId>)
      requires Valid()
      modifies this
      ensures Valid() && (old(CleanHistory()) ==> CleanHistory())
      ensures pending <= old(pending) && qcs == old(qcs) && blocks == old(blocks) && todo == old(todo)
      ensures owed == old(owed)
      ensures votes == old(votes) && committed == old(committed)
      ensures match found
        case None => Settled(View()) && sentVote == old(sentVote) && cast == old(cast)
        case Some(b) =>
          b in old(pending) && b !in pending && b in blocks
          && sentVote == old(sentVote) + {b} && cast == old(cast) + {b}
    {
      hide Run, LegalRun, CleanRun, TakesLock, Prune, RecordVote, CheckCommit, LearnCommit, Spec.SafeToVote;
      var rest := pending;
      while rest != {}
        invariant Valid() && (old(CleanHistory()) ==> CleanHistory())
        invariant rest <= pending <= old(pending)
        invariant qcs == old(qcs) && blocks == old(blocks) && todo == old(todo) && owed == old(owed)
        invariant votes == old(votes) && committed == old(committed) && cast == old(cast)
        invariant sentVote == old(sentVote) && lockedBlk == old(lockedBlk) && lockedH == old(lockedH)
        invariant forall b :: b in pending && b !in rest ==>
          b in blocks && b !in sentVote && !Spec.SafeToVote(old(View()), blocks[b].parent)
      {
        var b :| b in rest;
        rest := rest - {b};
        SameSafety(View(), old(View()));
        if b in sentVote || b !in blocks {
          DropStale(b);
        } else {
          var safe := SafeToVote(blocks[b].parent);
          if safe {
            Claim(b);
            return Some(b);
          }
        }
      }
      SameSafety(View(), old(View()));
      return None;
    }

    lemma Unchanged(s: L2State)
      ensures Cascaded(Cfg(), self, sign, s, s)
    {
    }

    method RetryPendingVotes(now: int)
      requires Valid()
      modifies this
      decreases |pending|, 0
      ensures Valid() && (old(CleanHistory()) ==> CleanHistory())
      ensures pending <= old(pending) && todo <= old(todo) && owed == old(owed) && Since(old(View()))
      ensures Settled(View())
    {
      hide Run, LegalRun, CleanRun, Settled, Cascaded, Grew, Filed;
      Unchanged(View());
      while true
        invariant Valid() && (old(CleanHistory()) ==> CleanHistory())
        invariant pending <= old(pending) && todo <= old(todo) && owed == old(owed) && Since(old(View()))
        decreases |pending|
      {
        ghost var before, s1 := pending, View();
        var found := ScanPending();
        ScanGrew(s1, View());
        if found.None? {
          Undecided(Cfg(), self, sign, s1, View());
          CascadedTrans(Cfg(), self, sign, old(View()), s1, View());
          return;
        }
        var b := found.value;
        SubsetSize(pending, before);
        SubsetSize(before, old(pending));
        if CleanHistory() { BlocksTold(b); }
        OwedAreStored();
        ghost var claimed, s2 := pending, View();
        PublishVote(b, blocks[b].height, blocks[b].parent, now);
        SubsetSize(pending, claimed);
        ClaimCascaded(Cfg(), self, sign, s1, s2, View(), b);
        CascadedTrans(Cfg(), self, sign, old(View()), s1, View());
      }
    }

    method PublishVote(b: BlockId, height: int, parent: BlockId, now: int)
      requires Valid()
      modifies this
      decreases |pending|, 4
      ensures Valid()
      ensures sign(VotePayload(b, parent, height, STEP_PREPARE, self)).None? ==> View() == old(View())
      ensures old(CleanHistory()) && parent == tree.parent(b) && height == tree.height(b) ==> CleanHistory()
      ensures pending <= old(pending) && todo <= old(todo) && owed == old(owed) && Since(old(View()))
      ensures Filed(Cfg(), sign, View(), VotePayload(b, parent, height, STEP_PREPARE, self))
    {
      hide Run, LegalRun, CleanRun, Cascaded, Grew;
      var payload := VotePayload(b, parent, height, STEP_PREPARE, self);
      var sig := sign(payload);
      if sig.None? {
        Unchanged(View());
        return;
      }
      ConsumeVote(VoteMsg(payload, sig.value), now);
    }

    method ConsumeVote(msg: VoteMsg, now: int)
      requires Valid()
      modifies this
      decreases |pending|, 3
      ensures Valid() && (old(CleanHistory()) && VoteTold(tree, msg) ==> CleanHistory())
      ensures pending <= old(pending) && todo <= old(todo) && owed == old(owed) && Since(old(View()))
      ensures if Spec.VerifyVote(Cfg(), msg) then Counted(Cfg(), old(View()), View(), msg, now)
        else View() == old(View())
    {
      hide Run, LegalRun, CleanRun, TakesLock, Prune, RecordVote, CheckCommit, LearnCommit, Spec.SafeToVote,
        Cascaded, Grew;
      var ok := VerifyVote(msg);
      if !ok {
        Unchanged(View());
        return;
      }
      ghost var s0, b := View(), msg.payload.block;
      var shouldBuild := FileVote(msg, now);
      ghost var s1 := View();
      RecordGrew(s0, msg, now);
      RecordCounts(s0, msg, now);
      Undecided(Cfg(), self, sign, s0, s1);
      if shouldBuild {
        BuildAndBroadcastQC(msg.payload.block, now);
        CascadedKeeps(Cfg(), self, sign, s1, View(), b);
        CascadedTrans(Cfg(), self, sign, s0, s1, View());
      }
    }

    /** File a verified vote, and tell whether it completes a quorum. */
    method FileVote(msg: VoteMsg, now: int) returns (shouldBuild: bool)
      requires Valid() && Spec.VerifyVote(Cfg(), msg)
      modifies this
      ensures Valid() && View() == RecordVote(old(View()), msg, now)
      ensures old(CleanHistory()) && VoteTold(tree, msg) ==> CleanHistory()
      ensures pending == old(pending) && qcs == old(qcs) && todo == old(todo) && owed == old(owed)
      ensures msg.payload.block in votes
      ensures shouldBuild ==> Legal(Cfg(), View(), MakeQC(msg.payload.block))
      ensures shouldBuild <==>
        !InTable(old(votes), msg) && msg.payload.block !in qcs && |votes[msg.payload.block]| >= quorum
    {
      hide RecordVote, Run, LegalRun, CleanRun, TakesLock, Prune, CheckCommit, LearnCommit, Spec.SafeToVote,
        Spec.VerifyVote;
      ghost var s0 := View();
      shouldBuild := EnterVote(msg, now);
      Record(TakeVote(msg, now), s0);
    }

    method EnterVote(msg: VoteMsg, now: int) returns (shouldBuild: bool)
      modifies this`votes, this`blocks
      ensures View() == RecordVote(old(View()), msg, now)
      ensures msg.payload.block in votes
      ensures shouldBuild <==>
        !InTable(old(votes), msg) && msg.payload.block !in qcs && |votes[msg.payload.block]| >= quorum
      ensures shouldBuild ==> msg.payload.block in blocks
    {
      var b, peer := msg.payload.block, msg.payload.peer;
      var table := if b in votes then votes[b] else map[];
      if peer in table { return false; }
      table := table[peer := VoteRecord(msg, now)];
      votes := votes[b := table];
      if b !in blocks { blocks := blocks[b := Meta(msg.payload.height, msg.payload.parent)]; }
      shouldBuild := b !in qcs && |table| >= quorum;
    }

    /** In clean histories a quorum still without certificate is always one for a recorded block. */
    lemma QuorumsAreRecorded(b: BlockId)
      requires Valid() && CleanHistory()
      ensures RecordedQuorum(View(), quorum, b)
    {
      RunKeepsRecords(Cfg(), Init(), trace);
      RunKeepsCommits(Cfg(), tree, trace);
    }

    method BuildAndBroadcastQC(b: BlockId, now: int)
      requires Valid() && RecordedQuorum(View(), quorum, b)
      modifies this
      decreases |pending|, 2
      ensures Valid() && (old(CleanHistory()) ==> CleanHistory())
      ensures pending <= old(pending) && todo <= old(todo) && owed == old(owed) && Since(old(View()))
      ensures b in qcs || b !in old(votes) || |old(votes)[b]| < quorum
      ensures b in old(qcs) || b !in old(votes) || |old(votes)[b]| < quorum ==> View() == old(View())
    {
      hide Run, LegalRun, CleanRun, TakesLock, Prune, RecordVote, CheckCommit, LearnCommit, Spec.SafeToVote,
        Messages, Spec.StoreQC, Cascaded, Grew;
      if b in qcs || b !in votes || |votes[b]| < quorum {
        Unchanged(View());
        return;
      }
      var list := ListVotes(votes[b]);
      var qc := QC(b, blocks[b].parent, blocks[b].height, STEP_PREPARE, list);
      OwedAreStored();
      var stored := StoreQC(qc, now, MakeQC(b));
    }

    /** Store a certificate by the critical section of event e, then catch up on pending votes and
        on the commits the certificate may have completed. */
    method StoreQC(qc: QC, now: int, ghost e: Event) returns (stored: bool)
      requires Valid() && qc.block != NONE
      requires qc.block !in qcs ==> Legal(Cfg(), View(), e) && Apply(Cfg(), View(), e) == Spec.StoreQC(View(), qc)
      modifies this
      decreases |pending|, 1
      ensures Valid() && (old(CleanHistory()) && Clean(tree, old(View()), e) ==> CleanHistory())
      ensures stored <==> qc.block !in old(qcs)
      ensures qc.block in qcs && (if stored then qcs[qc.block] == qc else View() == old(View()))
      ensures pending <= old(pending) && todo <= old(todo) && owed == old(owed) && Since(old(View()))
      ensures stored ==> Settled(View())
    {
      hide Run, LegalRun, CleanRun, TakesLock, Prune, RecordVote, CheckCommit, LearnCommit, Spec.SafeToVote, Apply,
        Legal, Settled, Cascaded, Grew;
      if qc.block in qcs {
        Unchanged(View());
        return false;
      }
      OwedAreStored();
      var grand := EnterNewQC(qc, e);
      ghost var s1 := View();
      RetryPendingVotes(now);
      ghost var s2 := View();
      CascadedTrans(Cfg(), self, sign, old(View()), s1, s2);
      CascadedKeeps(Cfg(), self, sign, s1, s2, qc.block);
      Announce(qc, grand);
      CascadedTrans(Cfg(), self, sign, old(View()), s2, View());
      SettledFrame(s2, View());
      return true;
    }

    /** After the critical section: commit checks, then the notice to L3. */
    method Announce(qc: QC, grand: BlockId)
      requires Valid() && qc.block in qcs && qcs[qc.block] == qc && (qc.parent != NONE ==> qc.block in owed)
      modifies this
      ensures Valid() && (old(CleanHistory()) ==> CleanHistory())
      ensures SameWaiting(old(View()), View())
      ensures todo == old(todo) - {qc.parent, qc.block} - (if grand != NONE then {grand} else {})
      ensures owed == (if qc.parent == NONE then old(owed) else old(owed) - {qc.block}) && Since(old(View()))
    {
      hide Run, LegalRun, CleanRun, TakesLock, Prune, RecordVote, CheckCommit, LearnCommit, Spec.SafeToVote, Apply,
        Legal, Cascaded, Grew;
      CheckCommitFor(qc.parent);
      ghost var s1 := View();
      CheckCommitFor(qc.block);
      CascadedTrans(Cfg(), self, sign, old(View()), s1, View());
      if grand != NONE {
        ghost var s2 := View();
        CheckCommitFor(grand);
        CascadedTrans(Cfg(), self, sign, old(View()), s2, View());
      }
      ghost var s3 := View();
      NotifyL3(qc);
      CascadedTrans(Cfg(), self, sign, old(View()), s3, View());
    }

    method EnterNewQC(qc: QC, ghost e: Event) returns (grand: BlockId)
      requires Valid() && qc.block !in qcs && Legal(Cfg(), View(), e)
      requires Apply(Cfg(), View(), e) == Spec.StoreQC(View(), qc)
      modifies this`qcs, this`childQCs, this`lockedBlk, this`lockedH, this`todo, this`owed, this`trace
      ensures Valid() && View() == Spec.StoreQC(old(View()), qc) && grand == Grandparent(old(View()), qc.parent)
      ensures old(CleanHistory()) && Clean(tree, old(View()), e) ==> CleanHistory()
      ensures Since(old(View()))
    {
      hide Run, LegalRun, CleanRun, Legal, Apply, Clean, Spec.StoreQC, Cascaded, Grew;
      ghost var s0 := View();
      StoreGrew(s0, qc);
      Undecided(Cfg(), self, sign, s0, Spec.StoreQC(s0, qc));
      grand := EnterQC(qc);
      Record(e, s0);
    }

    method EnterQC(qc: QC) returns (grand: BlockId)
      requires qc.block !in qcs
      modifies this`qcs, this`childQCs, this`lockedBlk, this`lockedH, this`todo, this`owed
      ensures View() == Spec.StoreQC(old(View()), qc)
      ensures grand == Grandparent(old(View()), qc.parent)
    {
      hide TakesLock, LockHeight;
      ghost var s0 := View();
      qcs := qcs[qc.block := qc];
      grand := LinkChild(qc.block, qc.parent);
      todo := todo + ({qc.parent, qc.block, grand} - {NONE});
      LockIgnoresCerts(s0, View(), qc.block, qc.height);
      UpdateLockForQC(qc.block, qc.height);
    }

    method LinkChild(b: BlockId, parent: BlockId) returns (grand: BlockId)
      modifies this`childQCs, this`owed
      ensures childQCs ==
        if parent == NONE then old(childQCs) else old(childQCs)[parent := Kids(old(childQCs), parent) + {b}]
      ensures owed == if parent == NONE then old(owed) else old(owed) + {b}
      ensures grand == Grandparent(old(View()), parent)
    {
      grand := NONE;
      if parent != NONE {
        childQCs := childQCs[parent := Kids(childQCs, parent) + {b}];
        owed := owed + {b};
        if parent in blocks { grand := blocks[parent].parent; }
      }
    }

    /** Tell L3 about the certificate of a block with a parent. */
    method NotifyL3(qc: QC)
      requires Valid() && qc.block in qcs && qcs[qc.block] == qc && (qc.parent != NONE ==> qc.block in owed)
      modifies this
      ensures Valid() && (old(CleanHistory()) ==> CleanHistory())
      ensures SameWaiting(old(View()), View()) && todo == old(todo) && Since(old(View()))
      ensures owed == if qc.parent == NONE then old(owed) else old(owed) - {qc.block}
      ensures notes == if qc.parent == NONE then old(notes) else old(notes) + [QCNote(qc.parent, qc.block, |qc.votes|)]
    {
      hide Run, LegalRun, CleanRun, TakesLock, Prune, RecordVote, CheckCommit, LearnCommit, Spec.SafeToVote;
      if qc.parent == NONE { return; }
      ghost var s0 := View();
      notes := notes + [QCNote(qc.parent, qc.block, |qc.votes|)];
      owed := owed - {qc.block};
      Record(Event.NotifyL3(qc.block), s0);
    }

    // ---------- message handlers ----------

    method OnVote(msg: VoteMsg, now: int)
      requires Valid()
      modifies this
      ensures Valid() && (old(CleanHistory()) && VoteTold(tree, msg) ==> CleanHistory())
      ensures todo <= old(todo) && owed == old(owed) && Since(old(View()))
      ensures if SignedFor(Cfg(), msg, msg.payload.block) then Counted(Cfg(), old(View()), View(), msg, now)
        else View() == old(View())
    {
      ConsumeVote(msg, now);
    }

    lemma SafeInTree(parent: BlockId)
      requires Valid() && CleanHistory() && tree.WellFormed()
      ensures Spec.SafeToVote(View(), parent) <==>
        parent == NONE || lockedBlk == NONE || Reaches(tree, blocks.Keys, parent, lockedBlk)
    {
      RunKeepsCommits(Cfg(), tree, trace);
      VotesExactly(Cfg(), tree, View(), parent);
    }

    /** A new block is recorded once and voted for at most once: at once if that is safe, and
        otherwise it waits. */
    method OnBlock(b: BlockId, parent: BlockId, height: int, now: int)
      requires Valid()
      modifies this
      ensures Valid()
      ensures old(CleanHistory()) && parent == tree.parent(b) && height == tree.height(b) ==> CleanHistory()
      ensures todo <= old(todo) && owed == old(owed) && Grew(old(View()), View())
      ensures b == NONE ==> View() == old(View())
      ensures b != NONE ==> b in blocks && (b in sentVote || b in pending)
      ensures var safe := b !in old(sentVote) && Spec.SafeToVote(AddMeta(old(View()), b, parent, height), parent);
        b != NONE ==>
          if safe then b in cast && Filed(Cfg(), sign, View(), VotePayload(b, parent, height, STEP_PREPARE, self))
          else View() == Marked(AddMeta(old(View()), b, parent, height), b, parent)
      ensures b != NONE ==>
        b in blocks && blocks[b] == if b in old(blocks) then old(blocks)[b] else Meta(height, parent)
      ensures (b != NONE && b !in old(sentVote) && old(CleanHistory()) && tree.WellFormed()
        && parent == tree.parent(b) && height == tree.height(b)) ==>
          if parent == NONE || old(lockedBlk) == NONE
            || Reaches(tree, old(blocks).Keys + {b}, parent, old(lockedBlk))
          then b in cast && b in sentVote else b in pending && b !in sentVote
    {
      hide Run, LegalRun, CleanRun, Marked, Cascaded, Grew, Filed, Spec.SafeToVote, Reaches;
      if b == NONE {
        CascadedGrew(Cfg(), self, sign, View(), View()) by { Unchanged(View()); }
        return;
      }
      SeeBlockOnce(b, parent, height);
      ghost var s0 := View();
      assert blocks.Keys == old(blocks).Keys + {b} && lockedBlk == old(lockedBlk);
      if CleanHistory() && tree.WellFormed() { SafeInTree(parent); }
      var safe := MarkVoteIfSafe(b, parent, height);
      MarkFrame(old(View()), b, parent, height);
      MarkGrew(old(View()), b, parent, height);
      if safe {
        ghost var s1 := View();
        PublishVote(b, height, parent, now);
        CascadedKeeps(Cfg(), self, sign, s1, View(), b);
        CascadedGrew(Cfg(), self, sign, s1, View());
        assert b in cast && b in sentVote && blocks[b] == s1.blocks[b];
        GrewTrans(old(View()), s1, View());
      }
    }

    /** A valid certificate is stored once; afterwards no waiting block is safe to vote for, and when
        no commit check was owed before, none is owed now. */
    method OnQC(qc: QC, now: int)
      requires Valid()
      modifies this
      ensures Valid() && (old(CleanHistory()) && Told(tree, DeliverQC(qc)) ==> CleanHistory())
      ensures todo <= old(todo) && owed == old(owed) && Since(old(View()))
      ensures !Spec.VerifyQC(Cfg(), qc) ==> View() == old(View())
      ensures Spec.VerifyQC(Cfg(), qc) ==> qc.block in qcs && qc.block in blocks
      ensures Spec.VerifyQC(Cfg(), qc) && qc.block !in old(qcs) ==> qcs[qc.block] == qc && Settled(View())
    {
      hide Run, LegalRun, CleanRun, Settled, TakesLock, Spec.SafeToVote, Cascaded, Grew;
      var ok := VerifyQC(qc);
      if !ok {
        Unchanged(View());
        return;
      }
      assert qc.votes[0] in qc.votes;
      AddGrew(View(), qc.block, qc.parent, qc.height);
      Undecided(Cfg(), self, sign, View(), AddMeta(View(), qc.block, qc.parent, qc.height));
      SeeBlockOnce(qc.block, qc.parent, qc.height);
      ghost var s1 := View();
      var stored := StoreQC(qc, now, DeliverQC(qc));
      if !stored { Unchanged(View()); }
      CascadedKeeps(Cfg(), self, sign, s1, View(), qc.block);
      CascadedTrans(Cfg(), self, sign, old(View()), s1, View());
    }

    /** Between handlers the committed blocks are exactly the three-chain heads of all certificates. */
    lemma CommittedBetweenHandlers()
      requires Valid() && CleanHistory() && todo == {}
      ensures committed.Keys == Heads(tree, qcs.Keys)
    {
      CommitsExact(Cfg(), tree, trace);
    }
  }
}
