/** Quorum certificates: what a validator builds, what peers accept, and how quorums overlap. */
module L2Certificates {
  import opened BlockTree
  import opened L2State
  import opened L2Invariants

  function HotstuffQuorumSize(validators: int): (q: int)
    ensures q >= 3 && 3 * q >= 2 * validators
    ensures forall r :: r >= 3 && 3 * r >= 2 * validators ==> q <= r
  {
    if validators < 3 then 3
    else
      var quorum := (2 * validators + 2) / 3;
      if quorum < 3 then 3 else quorum
  }

  function Signers(votes: seq<VoteMsg>): set<PeerId> {
    set v | v in votes :: v.payload.peer
  }

  lemma {:induction false} DistinctSigners(votes: seq<VoteMsg>)
    requires DistinctPeers(votes)
    ensures |Signers(votes)| == |votes|
  {
    if votes != [] {
      var rest, last := votes[..|votes| - 1], votes[|votes| - 1];
      DistinctSigners(rest);
      forall v | v in rest ensures v.payload.peer != last.payload.peer {
        var i :| 0 <= i < |rest| && rest[i] == v;
        assert votes[i] == v;
      }
      assert last.payload.peer !in Signers(rest);
      SignersSnoc(rest, last);
      assert votes == rest + [last];
      hide Signers, DistinctPeers;
    }
  }

  lemma SignersSnoc(rest: seq<VoteMsg>, last: VoteMsg)
    ensures Signers(rest + [last]) == Signers(rest) + {last.payload.peer}
  {
    forall v ensures v in rest + [last] <==> v in rest || v == last {}
  }

  /** The message list holds every recorded message once, under its own signer. */
  lemma {:induction false} MessagesHold(table: map<PeerId, VoteRecord>, peers: set<PeerId>)
    requires peers <= table.Keys && forall p :: p in table ==> table[p].msg.payload.peer == p
    ensures var list := Messages(table, peers); |list| == |peers| && DistinctPeers(list) && Signers(list) == peers
    ensures forall v :: v in Messages(table, peers) <==> v.payload.peer in peers && v == table[v.payload.peer].msg
  {
    if peers != {} {
      var p, list := Least(peers), Messages(table, peers);
      var rest := Messages(table, peers - {p});
      MessagesHold(table, peers - {p});
      assert list == [table[p].msg] + rest;
      forall v ensures v in list <==> v.payload.peer in peers && v == table[v.payload.peer].msg {
        assert v in list <==> v == table[p].msg || v in rest;
      }
      forall j | 0 < j < |list| ensures list[j].payload.peer != p { assert list[j] in rest; }
      forall q | q in peers ensures q in Signers(list) { assert table[q].msg in list; }
    }
  }

  predicate Ascending(votes: seq<VoteMsg>) {
    forall i, j :: 0 <= i < j < |votes| ==> votes[i].payload.peer < votes[j].payload.peer
  }

  /** The message list is sorted by signer. */
  lemma {:induction false} MessagesAscend(table: map<PeerId, VoteRecord>, peers: set<PeerId>)
    requires peers <= table.Keys && forall p :: p in table ==> table[p].msg.payload.peer == p
    ensures Ascending(Messages(table, peers))
  {
    if peers != {} {
      var p, rest := Least(peers), Messages(table, peers - {Least(peers)});
      assert Messages(table, peers) == [table[p].msg] + rest;
      hide Messages, Signers, DistinctPeers, Ascending;
      MessagesAscend(table, peers - {p});
      MessagesHold(table, peers - {p});
      forall v | v in rest ensures p < v.payload.peer { assert v.payload.peer in peers - {p}; }
      AscendFrom(table[p].msg, rest);
    }
  }

  lemma AscendFrom(first: VoteMsg, rest: seq<VoteMsg>)
    requires Ascending(rest) && forall v :: v in rest ==> first.payload.peer < v.payload.peer
    ensures Ascending([first] + rest)
  {
  }

  /** A certificate built from the vote table passes verifyQC at a peer with the same quorum size
      exactly when all votes in the table name the parent on record for the block. */
  lemma BuiltQCVerifies(cfg: Config, s: L2State, b: BlockId)
    requires VotesFiled(cfg, s.votes) && Legal(cfg, s, MakeQC(b))
    ensures VerifyQC(cfg, BuildQC(s, b)) <==>
      forall p :: p in s.votes[b] ==> s.votes[b][p].msg.payload.parent == s.blocks[b].parent
    ensures Signers(BuildQC(s, b).votes) == s.votes[b].Keys
  {
    hide Messages, VerifyVote, DistinctPeers, Signers;
    var table := s.votes[b];
    MessagesHold(table, table.Keys);
    forall p | p in table ensures table[p].msg in Messages(table, table.Keys) {}
  }

  /** In truthful runs every built certificate is accepted by every such peer. */
  lemma BuiltQCIsAccepted(cfg: Config, t: Tree, s: L2State, b: BlockId)
    requires Basic(cfg, s) && Truth(t, s) && Legal(cfg, s, MakeQC(b))
    ensures VerifyQC(cfg, BuildQC(s, b))
  {
    BuiltQCVerifies(cfg, s, b);
  }

  /** A lying vote breaks it: the built certificate is then rejected by everyone. */
  lemma LyingVoteBreaksQC(cfg: Config, s: L2State, b: BlockId, p: PeerId)
    requires Basic(cfg, s) && Legal(cfg, s, MakeQC(b))
    requires p in s.votes[b] && s.votes[b][p].msg.payload.parent != s.blocks[b].parent
    ensures !VerifyQC(cfg, BuildQC(s, b))
  {
    BuiltQCVerifies(cfg, s, b);
  }

  /** Two quorums of n validators share more than (n-1)/3 signers, so more than may be faulty. */
  lemma QuorumsOverlap(all: set<PeerId>, s1: set<PeerId>, s2: set<PeerId>)
    requires s1 <= all && s2 <= all
    requires |s1| >= HotstuffQuorumSize(|all|) && |s2| >= HotstuffQuorumSize(|all|)
    ensures |s1 * s2| > (|all| - 1) / 3
  {
    SubsetSize(s1 + s2, all);
    assert |s1 + s2| == |s1| + |s2| - |s1 * s2|;
  }

  lemma SubsetSize<T>(a: set<T>, b: set<T>)
    requires a <= b
    ensures |a| <= |b| && (a != b ==> |a| < |b|)
  {
    assert b == a + (b - a) && a !! (b - a);
  }

  /** A set too large to leave a quorum outside it meets every quorum. */
  lemma QuorumMeets(all: set<PeerId>, quorum: nat, signers: set<PeerId>, w: set<PeerId>)
    requires signers <= all && w <= all && |signers| >= quorum && |w| > |all| - quorum
    ensures signers * w != {}
  {
    SubsetSize(signers + w, all);
    assert |signers + w| == |signers| + |w| - |signers * w|;
  }
}
