/** One epoch of the AION election: commits, reveals and VRF outputs arrive by gossip in any order
    and yield a ranked leader schedule. */
module AionSchedule {
  import opened BigEndian
  import opened MachineInts
  import opened Options
  import opened Rank

  /** A peer, numbered by the order of the peer id strings. */
  type Peer = nat
  type Bytes = seq<byte>

  datatype Msg =
    | Commit(pub: Peer, commit: Bytes)
    | Reveal(pub: Peer, seed: Bytes, commit: Bytes)
    | VRF(pub: Peer, input: Bytes, y: Bytes, proof: Bytes)

  /** The checks left abstract: a seed opens a commitment; a VRF proof verifies under a peer's key. */
  datatype Crypto = Crypto(opens: (Bytes, Bytes) -> bool, verify: (Peer, Bytes, Bytes, Bytes) -> bool)

  datatype Output = Output(y: Bytes, proof: Bytes)
  datatype Stash = Stash(input: Bytes, y: Bytes, proof: Bytes)
  datatype Tables = Tables(
    cmt: map<Peer, Bytes>, rev: map<Peer, Bytes>, vrf: map<Peer, Output>, pending: map<Peer, Stash>)

  const NONE := Tables(map[], map[], map[], map[])

  predicate WellFormed(m: Msg) {
    match m
    case Commit(_, commit) => |commit| == 32
    case Reveal(_, seed, commit) => |seed| > 0 && |commit| == 32
    case VRF(_, input, y, proof) => |input| > 0 && |y| == 32 && |proof| > 0
  }

  /** The VRF was evaluated on an input that begins with the seed, and its proof holds. */
  predicate Proves(c: Crypto, p: Peer, seed: Bytes, v: Stash) {
    seed <= v.input && c.verify(p, v.input, v.y, v.proof)
  }

  // ---------- what each message does to the tables ----------

  function Committed(t: Tables, m: Msg): Tables
    requires m.Commit?
  {
    if WellFormed(m) then t.(cmt := t.cmt[m.pub := m.commit]) else t
  }

  /** The reveal opens the commit on file, if there is one. */
  predicate OpensOnFile(c: Crypto, t: Tables, m: Msg)
    requires m.Reveal?
  {
    m.pub in t.cmt ==> c.opens(t.cmt[m.pub], m.seed)
  }

  /** The reveal handler after it has checked the commit in a critical section of its own. */
  function Filed(c: Crypto, t: Tables, m: Msg): Tables
    requires m.Reveal?
  {
    var p, t' := m.pub, t.(rev := t.rev[m.pub := m.seed]);
    if p in t.pending && Proves(c, p, m.seed, t.pending[p]) then
      t'.(vrf := t.vrf[p := Output(t.pending[p].y, t.pending[p].proof)], pending := t.pending - {p})
    else t'
  }

  function Revealed(c: Crypto, t: Tables, m: Msg): Tables
    requires m.Reveal?
  {
    if WellFormed(m) && OpensOnFile(c, t, m) then Filed(c, t, m) else t
  }

  /** The seed on file, empty when there is none. */
  function SeedOf(t: Tables, p: Peer): Bytes {
    if p in t.rev then t.rev[p] else []
  }

  /** The VRF handler after it has looked up the seed in a critical section of its own. */
  function AfterLook(c: Crypto, t: Tables, m: Msg, seed: Bytes): Tables
    requires m.VRF?
  {
    var v := Stash(m.input, m.y, m.proof);
    if |seed| == 0 then t.(pending := t.pending[m.pub := v])
    else if Proves(c, m.pub, seed, v) then t.(vrf := t.vrf[m.pub := Output(m.y, m.proof)])
    else t
  }

  function Evaluated(c: Crypto, t: Tables, m: Msg): Tables
    requires m.VRF?
  {
    if WellFormed(m) then AfterLook(c, t, m, SeedOf(t, m.pub)) else t
  }

  function Next(c: Crypto, t: Tables, m: Msg): Tables {
    match m
    case Commit(_, _) => Committed(t, m)
    case Reveal(_, _, _) => Revealed(c, t, m)
    case VRF(_, _, _, _) => Evaluated(c, t, m)
  }

  function Run(c: Crypto, ms: seq<Msg>): Tables {
    if ms == [] then NONE else Next(c, Run(c, ms[..|ms| - 1]), ms[|ms| - 1])
  }

  // ---------- every output was proved ----------

  /** The peer sent a VRF message with this output, whose proof verifies under its key, and revealed a seed
      that the input begins with. */
  ghost predicate Proved(c: Crypto, got: set<Msg>, p: Peer, out: Output) {
    exists input, r :: ProvedBy(c, got, p, out, input, r)
  }

  ghost predicate ProvedBy(c: Crypto, got: set<Msg>, p: Peer, out: Output, input: Bytes, r: Msg) {
    && VRF(p, input, out.y, out.proof) in got && c.verify(p, input, out.y, out.proof)
    && r in got && r.Reveal? && r.pub == p && |r.seed| > 0 && r.seed <= input
    && |out.y| == 32 && |out.proof| > 0
  }

  ghost function Received(ms: seq<Msg>): set<Msg> {
    set m | m in ms
  }

  ghost predicate SeedSent(got: set<Msg>, p: Peer, seed: Bytes) {
    exists r :: r in got && r.Reveal? && r.pub == p && r.seed == seed && |seed| > 0
  }

  ghost predicate StashSent(got: set<Msg>, p: Peer, v: Stash) {
    VRF(p, v.input, v.y, v.proof) in got && |v.y| == 32 && |v.proof| > 0
  }

  /** Everything in the tables comes from messages received, and every output was proved. */
  ghost predicate Provenance(c: Crypto, got: set<Msg>, t: Tables) {
    && (forall p :: p in t.rev ==> SeedSent(got, p, t.rev[p]))
    && (forall p :: p in t.pending ==> StashSent(got, p, t.pending[p]))
    && forall p :: p in t.vrf ==> Proved(c, got, p, t.vrf[p])
  }

  lemma MoreReceived(c: Crypto, got: set<Msg>, got': set<Msg>, t: Tables)
    requires Provenance(c, got, t) && got <= got'
    ensures Provenance(c, got', t)
  {
    forall p | p in t.vrf ensures Proved(c, got', p, t.vrf[p]) {
      var input, r :| ProvedBy(c, got, p, t.vrf[p], input, r);
      assert ProvedBy(c, got', p, t.vrf[p], input, r);
    }
  }

  lemma FiledProvenance(c: Crypto, got: set<Msg>, t: Tables, m: Msg)
    requires Provenance(c, got, t) && m in got && m.Reveal? && WellFormed(m)
    ensures Provenance(c, got, Filed(c, t, m))
  {
    var p := m.pub;
    if p in t.pending && Proves(c, p, m.seed, t.pending[p]) {
      var v := t.pending[p];
      assert ProvedBy(c, got, p, Output(v.y, v.proof), v.input, m);
    }
    hide Proved;
  }

  lemma ActedProvenance(c: Crypto, got: set<Msg>, t: Tables, m: Msg, seed: Bytes)
    requires Provenance(c, got, t) && m in got && m.VRF? && WellFormed(m)
    requires |seed| > 0 ==> SeedSent(got, m.pub, seed)
    ensures Provenance(c, got, AfterLook(c, t, m, seed))
  {
    if |seed| > 0 && Proves(c, m.pub, seed, Stash(m.input, m.y, m.proof)) {
      var r :| r in got && r.Reveal? && r.pub == m.pub && r.seed == seed;
      assert ProvedBy(c, got, m.pub, Output(m.y, m.proof), m.input, r);
    }
    hide Proved, Proves;
  }

  /** Whatever messages arrive in whatever order, every output in the VRF table was proved. */
  lemma {:induction false} OutputsAreProved(c: Crypto, ms: seq<Msg>)
    ensures Provenance(c, Received(ms), Run(c, ms))
  {
    if ms != [] {
      var before, m, got := ms[..|ms| - 1], ms[|ms| - 1], Received(ms);
      OutputsAreProved(c, before);
      MoreReceived(c, Received(before), got, Run(c, before));
      hide Provenance, Proves, Filed, AfterLook;
      var t := Run(c, before);
      match m {
        case Commit(_, _) => CommittedProvenance(c, got, t, m);
        case Reveal(_, _, _) => if WellFormed(m) { FiledProvenance(c, got, t, m); }
        case VRF(p, _, _, _) =>
          if WellFormed(m) {
            assert p in t.rev ==> SeedSent(got, p, t.rev[p]) by { SeedKnown(c, got, t, p); }
            ActedProvenance(c, got, t, m, SeedOf(t, p));
          }
      }
    }
  }

  lemma CommittedProvenance(c: Crypto, got: set<Msg>, t: Tables, m: Msg)
    requires Provenance(c, got, t) && m.Commit?
    ensures Provenance(c, got, Committed(t, m))
  {
  }

  lemma SeedKnown(c: Crypto, got: set<Msg>, t: Tables, p: Peer)
    requires Provenance(c, got, t)
    ensures p in t.rev ==> SeedSent(got, p, t.rev[p])
  {
  }

  /** A malformed message changes nothing. */
  lemma MalformedIsIgnored(c: Crypto, t: Tables, m: Msg)
    requires match m
      case Commit(_, commit) => |commit| != 32
      case Reveal(_, seed, commit) => |seed| == 0 || |commit| != 32
      case VRF(_, input, y, proof) => |input| == 0 || |y| != 32 || |proof| == 0
    ensures Next(c, t, m) == t
  {
  }

  // ---------- delivery order does not matter ----------

  predicate SameSlot(m: Msg, n: Msg) {
    m.pub == n.pub && (m.Commit? <==> n.Commit?) && (m.Reveal? <==> n.Reveal?)
  }

  /** The message is the first of its kind from its peer, or the first again. */
  ghost predicate Follows(sent: set<Msg>, m: Msg) {
    forall n :: n in sent && SameSlot(n, m) ==> n == m
  }

  /** The well-formed messages. */
  ghost function Sent(ms: seq<Msg>): set<Msg> {
    set m | m in ms && WellFormed(m)
  }

  /** Each peer sends at most one message of each kind; copies of it may come any number of times. */
  ghost predicate Single(ms: seq<Msg>) {
    ms == [] || (Single(ms[..|ms| - 1]) && (WellFormed(ms[|ms| - 1]) ==> Follows(Sent(ms[..|ms| - 1]), ms[|ms| - 1])))
  }

  /** No first copy of a commit arrives after a reveal of its peer. */
  ghost predicate CommitsFirst(ms: seq<Msg>) {
    ms == [] || (CommitsFirst(ms[..|ms| - 1]) && NotLate(Sent(ms[..|ms| - 1]), ms[|ms| - 1]))
  }

  ghost predicate NotLate(sent: set<Msg>, m: Msg) {
    m.Commit? && WellFormed(m) && m !in sent ==> forall n :: n in sent && n.Reveal? ==> n.pub != m.pub
  }

  ghost predicate Proper(sent: set<Msg>) {
    && (forall m :: m in sent ==> WellFormed(m))
    && forall m, n :: m in sent && n in sent && SameSlot(m, n) ==> m == n
  }

  /** The reveal opens the commit of its peer, if that was sent. */
  ghost predicate Opens(c: Crypto, sent: set<Msg>, m: Msg)
    requires m.Reveal?
  {
    forall k :: k in sent && k.Commit? && k.pub == m.pub ==> c.opens(k.commit, m.seed)
  }

  /** The reveals that open the commits delivered before them. */
  ghost function Accepted(c: Crypto, ms: seq<Msg>): set<Msg> {
    if ms == [] then {} else Accept(c, Accepted(c, ms[..|ms| - 1]), Sent(ms[..|ms| - 1]), ms[|ms| - 1])
  }

  ghost function Accept(c: Crypto, acc: set<Msg>, sent: set<Msg>, m: Msg): set<Msg> {
    if m.Reveal? && WellFormed(m) && Opens(c, sent, m) then acc + {m} else acc
  }

  /** The VRF message was evaluated on the seed of the reveal. */
  ghost predicate Pair(c: Crypto, m: Msg, v: Msg) {
    m.Reveal? && v.VRF? && v.pub == m.pub && Proves(c, v.pub, m.seed, Stash(v.input, v.y, v.proof))
  }

  /** The reveal and the VRF message together make their peer a candidate. */
  ghost predicate Candidate(c: Crypto, acc: set<Msg>, sent: set<Msg>, m: Msg, v: Msg) {
    m in acc && v in sent && Pair(c, m, v)
  }

  /** The commit table holds the commits that were sent. */
  ghost predicate CommitsTallied(sent: set<Msg>, cmt: map<Peer, Bytes>) {
    forall p, k :: p in cmt && cmt[p] == k <==> Commit(p, k) in sent
  }

  /** The reveal table holds the seeds of the accepted reveals. */
  ghost predicate RevealsTallied(acc: set<Msg>, sent: set<Msg>, rev: map<Peer, Bytes>) {
    && (forall m :: m in acc ==> m in sent && m.Reveal? && m.pub in rev && rev[m.pub] == m.seed)
    && forall p :: p in rev ==> exists m :: m in acc && m.pub == p
  }

  /** The VRF table holds the outputs of the candidates. */
  ghost predicate OutputsTallied(c: Crypto, acc: set<Msg>, sent: set<Msg>, vrf: map<Peer, Output>) {
    && (forall m, v :: Candidate(c, acc, sent, m, v) ==> v.pub in vrf && vrf[v.pub] == Output(v.y, v.proof))
    && forall p :: p in vrf ==> exists m, v :: Candidate(c, acc, sent, m, v) && v.pub == p
  }

  function FromStash(p: Peer, v: Stash): Msg {
    VRF(p, v.input, v.y, v.proof)
  }

  /** The stash holds VRF messages that were sent, among them all those still without a seed. */
  ghost predicate StashTallied(sent: set<Msg>, rev: map<Peer, Bytes>, pending: map<Peer, Stash>) {
    && (forall v :: v in sent && v.VRF? && v.pub !in rev ==> v.pub in pending)
    && forall p :: p in pending ==> FromStash(p, pending[p]) in sent
  }

  /** The tables, said by the messages sent and the reveals accepted. */
  ghost predicate Tallied(c: Crypto, acc: set<Msg>, sent: set<Msg>, t: Tables) {
    && CommitsTallied(sent, t.cmt) && RevealsTallied(acc, sent, t.rev)
    && OutputsTallied(c, acc, sent, t.vrf) && StashTallied(sent, t.rev, t.pending)
  }

  /** Adding a candidate, or none, to the outputs. */
  lemma OutputsGrow(c: Crypto, acc: set<Msg>, sent: set<Msg>, acc': set<Msg>, sent': set<Msg>,
                    vrf: map<Peer, Output>, vrf': map<Peer, Output>, r: Msg, v: Msg)
    requires OutputsTallied(c, acc, sent, vrf)
    requires forall m, n :: Candidate(c, acc, sent, m, n) ==> Candidate(c, acc', sent', m, n)
    requires forall m, n :: Candidate(c, acc', sent', m, n) ==> Candidate(c, acc, sent, m, n) || (m == r && n == v)
    requires vrf' == if Candidate(c, acc', sent', r, v) then vrf[v.pub := Output(v.y, v.proof)] else vrf
    requires v.VRF? && (v.pub in vrf ==> vrf[v.pub] == Output(v.y, v.proof))
    ensures OutputsTallied(c, acc', sent', vrf')
  {
    hide Candidate;
    forall p | p in vrf' ensures exists m, n :: Candidate(c, acc', sent', m, n) && n.pub == p {
      if p in vrf {
        var m, n :| Candidate(c, acc, sent, m, n) && n.pub == p;
        assert Candidate(c, acc', sent', m, n);
      } else {
        assert Candidate(c, acc', sent', r, v);
      }
    }
    forall m, n | Candidate(c, acc', sent', m, n)
      ensures n.VRF? && n.pub in vrf' && vrf'[n.pub] == Output(n.y, n.proof) {
      Shape(c, acc', sent', m, n);
    }
  }

  lemma Shape(c: Crypto, acc: set<Msg>, sent: set<Msg>, m: Msg, v: Msg)
    requires Candidate(c, acc, sent, m, v)
    ensures m.Reveal? && v.VRF? && v.pub == m.pub && m in acc && v in sent
  {
  }

  lemma CommitStep(c: Crypto, acc: set<Msg>, sent: set<Msg>, t: Tables, m: Msg)
    requires Tallied(c, acc, sent, t) && Follows(sent, m) && m.Commit? && WellFormed(m)
    ensures Tallied(c, acc, sent + {m}, Committed(t, m))
  {
    var sent' := sent + {m};
    forall r, v ensures Candidate(c, acc, sent', r, v) <==> Candidate(c, acc, sent, r, v) {}
    hide Candidate;
    assert CommitsTallied(sent', t.cmt[m.pub := m.commit]);
    assert RevealsTallied(acc, sent', t.rev);
    assert OutputsTallied(c, acc, sent', t.vrf);
    assert StashTallied(sent', t.rev, t.pending);
  }

  /** A reveal enters the table exactly when it is accepted. */
  lemma RevealOpens(c: Crypto, acc: set<Msg>, sent: set<Msg>, t: Tables, m: Msg)
    requires CommitsTallied(sent, t.cmt) && RevealsTallied(acc, sent, t.rev) && Follows(sent, m)
    requires m.Reveal? && WellFormed(m)
    ensures Opens(c, sent, m) == OpensOnFile(c, t, m)
    ensures m.pub in t.rev ==> m in acc && t.rev[m.pub] == m.seed
  {
    if m.pub in t.cmt { assert Commit(m.pub, t.cmt[m.pub]) in sent; }
    forall n | n in acc && n.pub == m.pub ensures n == m { assert SameSlot(n, m); }
  }

  /** The VRF message is the one its peer has sent, if the peer has sent any. */
  ghost predicate Theirs(sent: set<Msg>, v: Msg) {
    v.VRF? && forall w :: w in sent && SameSlot(w, v) ==> w == v
  }

  lemma TheirOutput(c: Crypto, acc: set<Msg>, sent: set<Msg>, t: Tables, v: Msg)
    requires OutputsTallied(c, acc, sent, t.vrf) && StashTallied(sent, t.rev, t.pending) && Theirs(sent, v)
    ensures v.pub in t.vrf ==> t.vrf[v.pub] == Output(v.y, v.proof)
    ensures v.pub in t.pending ==> t.pending[v.pub] == Stash(v.input, v.y, v.proof) && v in sent
  {
    if v.pub in t.vrf {
      var q, w :| Candidate(c, acc, sent, q, w) && w.pub == v.pub;
      assert SameSlot(w, v);
    }
    if v.pub in t.pending { assert SameSlot(FromStash(v.pub, t.pending[v.pub]), v); }
  }

  /** The reveal can make a candidate only of the VRF message of its peer. */
  lemma RevealPairs(c: Crypto, acc: set<Msg>, sent: set<Msg>, t: Tables, m: Msg, v: Msg)
    requires Tallied(c, acc, sent, t) && Follows(sent, m) && m.Reveal? && WellFormed(m)
    requires Theirs(sent, v) && v.pub == m.pub
    ensures var acc', sent' := Accept(c, acc, sent, m), sent + {m};
      (forall r, w :: Candidate(c, acc, sent, r, w) ==> Candidate(c, acc', sent', r, w))
      && (forall r, w :: Candidate(c, acc', sent', r, w) ==> Candidate(c, acc, sent, r, w) || (r == m && w == v))
      && (Candidate(c, acc', sent', m, v) <==>
        (Candidate(c, acc, sent, m, v) ||
        (Opens(c, sent, m) && m.pub in t.pending && Proves(c, m.pub, m.seed, t.pending[m.pub]))))
  {
    RevealOpens(c, acc, sent, t, m);
    TheirOutput(c, acc, sent, t, v);
    hide Opens, Proves;
    forall w | w in sent && w.VRF? && w.pub == m.pub ensures w == v { assert SameSlot(w, v); }
  }

  lemma RevealTables(c: Crypto, acc: set<Msg>, sent: set<Msg>, t: Tables, m: Msg)
    requires CommitsTallied(sent, t.cmt) && RevealsTallied(acc, sent, t.rev) && StashTallied(sent, t.rev, t.pending)
    requires Follows(sent, m) && m.Reveal? && WellFormed(m)
    ensures var acc', sent', t' := Accept(c, acc, sent, m), sent + {m}, Revealed(c, t, m);
      CommitsTallied(sent', t'.cmt) && RevealsTallied(acc', sent', t'.rev) && StashTallied(sent', t'.rev, t'.pending)
  {
    RevealOpens(c, acc, sent, t, m);
    hide Opens, Follows, Proves;
    var acc', sent' := Accept(c, acc, sent, m), sent + {m};
    if Opens(c, sent, m) {
      var rev' := t.rev[m.pub := m.seed];
      assert RevealsTallied(acc', sent', rev') by {
        forall p | p in rev' ensures exists r :: r in acc' && r.pub == p {
          if p == m.pub {
            assert m in acc';
          } else {
            var r :| r in acc && r.pub == p;
            assert r in acc';
          }
        }
      }
    }
  }

  lemma RevealedOutputs(c: Crypto, acc: set<Msg>, sent: set<Msg>, t: Tables, m: Msg, v: Msg)
    requires Tallied(c, acc, sent, t) && Follows(sent, m) && m.Reveal? && WellFormed(m)
    requires Theirs(sent, v) && v.pub == m.pub
    requires Candidate(c, Accept(c, acc, sent, m), sent + {m}, m, v) <==>
      (Candidate(c, acc, sent, m, v) ||
      (Opens(c, sent, m) && m.pub in t.pending && Proves(c, m.pub, m.seed, t.pending[m.pub])))
    ensures Revealed(c, t, m).vrf ==
      if Candidate(c, Accept(c, acc, sent, m), sent + {m}, m, v) then t.vrf[v.pub := Output(v.y, v.proof)] else t.vrf
  {
    RevealOpens(c, acc, sent, t, m);
    TheirOutput(c, acc, sent, t, v);
    hide Opens, Proves, Accept, CommitsTallied, RevealsTallied, StashTallied;
    if Candidate(c, acc, sent, m, v) { assert t.vrf[v.pub := Output(v.y, v.proof)] == t.vrf; }
  }

  lemma RevealStep(c: Crypto, acc: set<Msg>, sent: set<Msg>, t: Tables, m: Msg)
    requires Tallied(c, acc, sent, t) && Follows(sent, m) && Proper(sent) && m.Reveal? && WellFormed(m)
    ensures Tallied(c, Accept(c, acc, sent, m), sent + {m}, Revealed(c, t, m))
  {
    var acc', sent', t', p := Accept(c, acc, sent, m), sent + {m}, Revealed(c, t, m), m.pub;
    assert CommitsTallied(sent', t'.cmt) && RevealsTallied(acc', sent', t'.rev)
        && StashTallied(sent', t'.rev, t'.pending) by {
      RevealTables(c, acc, sent, t, m);
    }
    assert Opens(c, sent, m) == OpensOnFile(c, t, m) by { RevealOpens(c, acc, sent, t, m); }
    var v := VRF(p, [], [], []);
    if w :| w in sent && w.VRF? && w.pub == p { v := w; }
    assert Theirs(sent, v);
    RevealPairs(c, acc, sent, t, m, v);
    TheirOutput(c, acc, sent, t, v);
    RevealedOutputs(c, acc, sent, t, m, v);
    hide Opens, OutputsTallied, CommitsTallied, RevealsTallied, StashTallied, Follows, Proper, Proves, Candidate,
      Accept;
    OutputsGrow(c, acc, sent, acc', sent', t.vrf, t'.vrf, m, v);
  }

  /** A VRF message pairs with the reveal on file, if there is one. */
  lemma VRFPairs(c: Crypto, acc: set<Msg>, sent: set<Msg>, t: Tables, m: Msg, r: Msg)
    requires Tallied(c, acc, sent, t) && Follows(sent, m) && Proper(sent) && m.VRF? && WellFormed(m)
    requires m.pub in t.rev ==> r in acc && r.pub == m.pub
    requires m.pub !in t.rev ==> r !in acc
    ensures forall q, w :: Candidate(c, acc, sent, q, w) ==> Candidate(c, acc, sent + {m}, q, w)
    ensures forall q, w :: Candidate(c, acc, sent + {m}, q, w) ==> Candidate(c, acc, sent, q, w) || (q == r && w == m)
    ensures Candidate(c, acc, sent + {m}, r, m) <==>
      m.pub in t.rev && Proves(c, m.pub, t.rev[m.pub], Stash(m.input, m.y, m.proof))
  {
    forall q | q in acc && q.pub == m.pub ensures q == r && m.pub in t.rev { assert SameSlot(q, r); }
  }

  lemma VRFTables(c: Crypto, acc: set<Msg>, sent: set<Msg>, t: Tables, m: Msg)
    requires CommitsTallied(sent, t.cmt) && RevealsTallied(acc, sent, t.rev) && StashTallied(sent, t.rev, t.pending)
    requires Proper(sent) && m.VRF? && WellFormed(m)
    ensures |SeedOf(t, m.pub)| == 0 <==> m.pub !in t.rev
    ensures var sent', t' := sent + {m}, Evaluated(c, t, m);
      CommitsTallied(sent', t'.cmt) && RevealsTallied(acc, sent', t'.rev) && StashTallied(sent', t'.rev, t'.pending)
  {
    forall p | p in t.rev ensures |t.rev[p]| > 0 {
      var q :| q in acc && q.pub == p;
    }
    hide Proper, Proves;
    VRFStashed(c, sent, t, m);
    EvaluatedKeeps(c, t, m);
    assert CommitsTallied(sent + {m}, t.cmt);
    assert RevealsTallied(acc, sent + {m}, t.rev);
    hide *;
  }

  lemma EvaluatedKeeps(c: Crypto, t: Tables, m: Msg)
    requires m.VRF?
    ensures Evaluated(c, t, m).cmt == t.cmt && Evaluated(c, t, m).rev == t.rev
  {
  }

  lemma VRFStashed(c: Crypto, sent: set<Msg>, t: Tables, m: Msg)
    requires StashTallied(sent, t.rev, t.pending) && m.VRF? && WellFormed(m)
    requires |SeedOf(t, m.pub)| == 0 <==> m.pub !in t.rev
    ensures StashTallied(sent + {m}, t.rev, Evaluated(c, t, m).pending)
  {
    hide Proves;
  }

  lemma VRFStep(c: Crypto, acc: set<Msg>, sent: set<Msg>, t: Tables, m: Msg)
    requires Tallied(c, acc, sent, t) && Follows(sent, m) && Proper(sent) && m.VRF? && WellFormed(m)
    ensures Tallied(c, acc, sent + {m}, Evaluated(c, t, m))
  {
    var sent', t' := sent + {m}, Evaluated(c, t, m);
    var r := m;
    if m.pub in t.rev { r :| r in acc && r.pub == m.pub; }
    VRFPairs(c, acc, sent, t, m, r);
    TheirOutput(c, acc, sent, t, m);
    VRFTables(c, acc, sent, t, m);
    hide OutputsTallied, CommitsTallied, RevealsTallied, StashTallied, Follows, Proper, Proves, Candidate;
    OutputsGrow(c, acc, sent, acc, sent', t.vrf, t'.vrf, r, m);
  }

  /** After any run with at most one message of each kind per peer, in any number of copies, the tables are
      determined by the messages sent and the reveals accepted. */
  lemma {:induction false} RunTallies(c: Crypto, ms: seq<Msg>)
    requires Single(ms)
    ensures Tallied(c, Accepted(c, ms), Sent(ms), Run(c, ms)) && Proper(Sent(ms))
  {
    if ms == [] {
      assert Sent(ms) == {};
    } else {
      var before, m := ms[..|ms| - 1], ms[|ms| - 1];
      RunTallies(c, before);
      SentSnoc(before, m);
      assert ms == before + [m];
      if WellFormed(m) { OneStep(c, Accepted(c, before), Sent(before), Run(c, before), m); }
    }
  }

  lemma SentSnoc(ms: seq<Msg>, m: Msg)
    ensures Sent(ms + [m]) == if WellFormed(m) then Sent(ms) + {m} else Sent(ms)
  {
  }

  lemma OneStep(c: Crypto, acc: set<Msg>, sent: set<Msg>, t: Tables, m: Msg)
    requires Tallied(c, acc, sent, t) && Follows(sent, m) && Proper(sent) && WellFormed(m)
    ensures Tallied(c, Accept(c, acc, sent, m), sent + {m}, Next(c, t, m)) && Proper(sent + {m})
  {
    assert Proper(sent + {m});
    hide Tallied, Follows, Proper, WellFormed, Revealed, Committed, Evaluated;
    match m {
      case Commit(_, _) => CommitStep(c, acc, sent, t, m);
      case Reveal(_, _, _) => RevealStep(c, acc, sent, t, m);
      case VRF(_, _, _, _) => VRFStep(c, acc, sent, t, m);
    }
  }

  /** The VRF table holds exactly the outputs of VRF messages whose proof verifies and whose input begins
      with the seed of an accepted reveal of their peer. */
  lemma TableExactly(c: Crypto, ms: seq<Msg>, p: Peer, out: Output)
    requires Single(ms)
    ensures p in Run(c, ms).vrf && Run(c, ms).vrf[p] == out <==>
      exists input, r :: r in Accepted(c, ms) && ProvedBy(c, Received(ms), p, out, input, r)
  {
    RunTallies(c, ms);
    var acc, sent, vrf := Accepted(c, ms), Sent(ms), Run(c, ms).vrf;
    hide Run, Accepted, Single;
    if p in vrf && vrf[p] == out {
      var r, v :| Candidate(c, acc, sent, r, v) && v.pub == p;
      assert r in acc && ProvedBy(c, Received(ms), p, out, v.input, r);
    }
    if input, r :| r in acc && ProvedBy(c, Received(ms), p, out, input, r) {
      assert Candidate(c, acc, sent, r, VRF(p, input, out.y, out.proof));
    }
  }

  /** When commits come first, the accepted reveals are those that open the commits sent. */
  lemma {:induction false} AcceptedByContent(c: Crypto, ms: seq<Msg>)
    requires Single(ms) && CommitsFirst(ms)
    ensures forall m :: m in Accepted(c, ms) <==> m in Sent(ms) && m.Reveal? && Opens(c, Sent(ms), m)
  {
    if ms != [] {
      var before, m := ms[..|ms| - 1], ms[|ms| - 1];
      AcceptedByContent(c, before);
      SentSnoc(before, m);
      assert ms == before + [m];
    }
  }

  /** Two deliveries of the same messages, at most one of each kind per peer in any number of copies, end
      with the same VRF table if and only if they accept the same ones of the reveals that pair with a VRF message. */
  lemma SameTableIff(c: Crypto, ms: seq<Msg>, ns: seq<Msg>)
    requires Single(ms) && Single(ns) && Sent(ms) == Sent(ns)
    ensures Run(c, ms).vrf == Run(c, ns).vrf <==>
      forall r, v :: r in Sent(ms) && v in Sent(ms) && Pair(c, r, v) ==>
        (r in Accepted(c, ms) <==> r in Accepted(c, ns))
  {
    RunTallies(c, ms);
    RunTallies(c, ns);
    TablesCompared(c, Accepted(c, ms), Accepted(c, ns), Sent(ms), Run(c, ms), Run(c, ns));
  }

  ghost predicate SamePairs(c: Crypto, acc: set<Msg>, acc': set<Msg>, sent: set<Msg>) {
    forall r, v :: r in sent && v in sent && Pair(c, r, v) ==> (r in acc <==> r in acc')
  }

  lemma TablesCompared(c: Crypto, acc: set<Msg>, acc': set<Msg>, sent: set<Msg>, t: Tables, t': Tables)
    requires Tallied(c, acc, sent, t) && Tallied(c, acc', sent, t') && Proper(sent)
    ensures t.vrf == t'.vrf <==> SamePairs(c, acc, acc', sent)
  {
    hide Pair;
    if SamePairs(c, acc, acc', sent) {
      assert forall r, v :: Candidate(c, acc, sent, r, v) <==> Candidate(c, acc', sent, r, v);
      OutputsUnique(c, acc, acc', sent, t.vrf, t'.vrf);
    }
    if t.vrf == t'.vrf {
      forall r, v | r in sent && v in sent && Pair(c, r, v) ensures r in acc <==> r in acc' {
        if r in acc { AlsoAccepted(c, acc, acc', sent, t, t', r, v); }
        if r in acc' { AlsoAccepted(c, acc', acc, sent, t', t, r, v); }
      }
    }
  }

  lemma AlsoAccepted(c: Crypto, acc: set<Msg>, acc': set<Msg>, sent: set<Msg>, t: Tables, t': Tables, r: Msg, v: Msg)
    requires Tallied(c, acc, sent, t) && Tallied(c, acc', sent, t') && Proper(sent) && t.vrf == t'.vrf
    requires Candidate(c, acc, sent, r, v)
    ensures r in acc'
  {
    var q, w :| Candidate(c, acc', sent, q, w) && w.pub == v.pub;
    Shape(c, acc, sent, r, v);
    Shape(c, acc', sent, q, w);
    assert SameSlot(q, r);
  }

  /** In particular commits first make the order irrelevant, through the stash or not. */
  lemma DeliveryOrderIrrelevant(c: Crypto, ms: seq<Msg>, ns: seq<Msg>)
    requires Single(ms) && Single(ns) && CommitsFirst(ms) && CommitsFirst(ns) && Sent(ms) == Sent(ns)
    ensures Run(c, ms).vrf == Run(c, ns).vrf
  {
    AcceptedByContent(c, ms);
    AcceptedByContent(c, ns);
    SameTableIff(c, ms, ns);
  }

  lemma OutputsUnique(c: Crypto, acc: set<Msg>, acc': set<Msg>, sent: set<Msg>,
                      vrf: map<Peer, Output>, vrf': map<Peer, Output>)
    requires OutputsTallied(c, acc, sent, vrf) && OutputsTallied(c, acc', sent, vrf')
    requires forall r, v :: Candidate(c, acc, sent, r, v) <==> Candidate(c, acc', sent, r, v)
    ensures vrf == vrf'
  {
    hide Candidate;
    forall p | p in vrf ensures p in vrf' && vrf'[p] == vrf[p] {
      var r, v :| Candidate(c, acc, sent, r, v) && v.pub == p;
      assert Candidate(c, acc', sent, r, v);
      Shape(c, acc, sent, r, v);
    }
    forall p | p in vrf' ensures p in vrf {
      var r, v :| Candidate(c, acc', sent, r, v) && v.pub == p;
      assert Candidate(c, acc, sent, r, v);
      Shape(c, acc, sent, r, v);
    }
  }

  /** The VRF handler looks up the seed in one critical section and stashes in another. A reveal that
      arrives between the two finds nothing in the stash, and its peer is no candidate; in either
      order of undivided handlers the peer is one. */
  lemma RevealBetweenLookAndStash(c: Crypto, t: Tables, r: Msg, v: Msg)
    requires r.Reveal? && v.VRF? && r.pub == v.pub && WellFormed(r) && WellFormed(v)
    requires r.pub !in t.rev && r.pub !in t.vrf && r.pub !in t.pending
    requires r.pub in t.cmt ==> c.opens(t.cmt[r.pub], r.seed)
    requires Proves(c, v.pub, r.seed, Stash(v.input, v.y, v.proof))
    ensures v.pub in Evaluated(c, Revealed(c, t, r), v).vrf
    ensures v.pub in Revealed(c, Evaluated(c, t, v), r).vrf
    ensures v.pub !in AfterLook(c, Revealed(c, t, r), v, SeedOf(t, v.pub)).vrf
  {
    hide Proves;
  }

  /** A reveal that overtakes its peer's commit is not checked against it, so the order of those two matters. */
  lemma LateCommitIsNotChecked(c: Crypto, k: Msg, r: Msg, v: Msg)
    requires k.Commit? && r.Reveal? && v.VRF? && k.pub == r.pub == v.pub && WellFormed(k) && WellFormed(r)
    requires WellFormed(v)
    requires !c.opens(k.commit, r.seed) && Proves(c, v.pub, r.seed, Stash(v.input, v.y, v.proof))
    ensures v.pub in Run(c, [r, k, v]).vrf && v.pub !in Run(c, [k, r, v]).vrf
  {
    hide Proves;
    assert [r, k, v][..2] == [r, k] && [r, k][..1] == [r] && [k, r, v][..2] == [k, r] && [k, r][..1] == [k];
    assert Run(c, [r]).rev == map[r.pub := r.seed] && Run(c, [k]).cmt == map[k.pub := k.commit];
    assert Run(c, [r, k]).rev == map[r.pub := r.seed];
    assert Run(c, [k, r]) == Run(c, [k]) && Run(c, [k]).vrf == map[];
    assert [k, r, v][2] == v && [r, k, v][2] == v;
  }

  // ---------- the ranked schedule ----------

  ghost predicate Usable(vrf: map<Peer, Output>, weight: uint32) {
    weight > 0 && forall p :: p in vrf ==> |vrf[p].y| == 32
  }

  /** Lower rank first; the peer id breaks ties. */
  ghost predicate Before(vrf: map<Peer, Output>, weight: uint32, p: Peer, q: Peer)
    requires weight > 0 && p in vrf && q in vrf
  {
    var r, s := ExactRank(vrf[p].y, weight as nat), ExactRank(vrf[q].y, weight as nat);
    r < s || (r == s && p < q)
  }

  /** The peers of the table, each once, best rank first. */
  ghost predicate Ranked(s: seq<Peer>, vrf: map<Peer, Output>, weight: uint32)
    requires weight > 0
  {
    && (forall p :: p in s <==> p in vrf)
    && forall i, j :: 0 <= i < j < |s| ==> Before(vrf, weight, s[i], s[j])
  }

  lemma HeadIn(s: seq<Peer>)
    ensures s != [] ==> s[0] in s
  {
  }

  /** There is only one such list. */
  lemma {:induction false} RankedUnique(s: seq<Peer>, s': seq<Peer>, vrf: map<Peer, Output>, weight: uint32)
    requires weight > 0 && Ranked(s, vrf, weight) && Ranked(s', vrf, weight)
    ensures s == s'
    decreases |vrf|
  {
    if s == [] || s' == [] {
      HeadIn(s);
      HeadIn(s');
    } else {
      var i :| 0 <= i < |s| && s[i] == s'[0] by { assert s'[0] in s; }
      var j :| 0 <= j < |s'| && s'[j] == s[0] by { assert s[0] in s'; }
      assert i == 0;
      var rest := vrf - {s[0]};
      RankedTail(s, vrf, weight);
      RankedTail(s', vrf, weight);
      assert vrf.Keys == rest.Keys + {s[0]};
      RankedUnique(s[1..], s'[1..], rest, weight);
    }
  }

  lemma RankedTail(s: seq<Peer>, vrf: map<Peer, Output>, weight: uint32)
    requires weight > 0 && s != [] && Ranked(s, vrf, weight)
    ensures Ranked(s[1..], vrf - {s[0]}, weight) && s[0] in vrf
  {
    hide Before;
    var rest, tail := vrf - {s[0]}, s[1..];
    assert s[0] in s && s == [s[0]] + tail;
    forall i | 0 <= i < |tail| ensures tail[i] in rest {
      assert tail[i] in s && Before(vrf, weight, s[0], s[i + 1]);
      BeforeOther(vrf, weight, s[0], s[i + 1]);
    }
    forall i, j | 0 <= i < j < |tail| ensures Before(rest, weight, tail[i], tail[j]) {
      assert Before(vrf, weight, s[i + 1], s[j + 1]);
      BeforeRest(vrf, weight, s[i + 1], s[j + 1], s[0]);
    }
  }

  lemma BeforeOther(vrf: map<Peer, Output>, weight: uint32, p: Peer, q: Peer)
    requires weight > 0 && p in vrf && q in vrf && Before(vrf, weight, p, q)
    ensures p != q
  {
    hide ExactRank;
  }

  lemma BeforeRest(vrf: map<Peer, Output>, weight: uint32, p: Peer, q: Peer, r: Peer)
    requires weight > 0 && p in vrf && q in vrf && p != r && q != r && Before(vrf, weight, p, q)
    ensures Before(vrf - {r}, weight, p, q)
  {
    hide ExactRank;
  }

  datatype Cand = Cand(pub: Peer, rank: Bytes)

  ghost predicate Less(a: Cand, b: Cand) {
    Value(a.rank) < Value(b.rank) || (Value(a.rank) == Value(b.rank) && a.pub < b.pub)
  }

  ghost predicate Sorted(s: seq<Cand>) {
    forall i, j :: 0 <= i < j < |s| ==> Less(s[i], s[j])
  }

  /** The comparison the sort uses. */
  method Precedes(a: Cand, b: Cand) returns (r: bool)
    requires |a.rank| == |b.rank|
    ensures r <==> Less(a, b)
  {
    var c := CmpRank(a.rank, b.rank);
    if c != 0 { return c < 0; }
    return a.pub < b.pub;
  }

  /** Stands for the library sort: the list in the order of the comparison. */
  method Place(sorted: seq<Cand>, c: Cand) returns (r: seq<Cand>)
    requires Sorted(sorted) && |c.rank| == 33 && (forall d :: d in sorted ==> |d.rank| == 33 && d.pub != c.pub)
    ensures Sorted(r) && forall d :: d in r <==> d in sorted || d == c
  {
    var i := 0;
    hide Value;
    while i < |sorted|
      invariant 0 <= i <= |sorted| && forall k :: 0 <= k < i ==> Less(sorted[k], c)
    {
      var goesFirst := Precedes(sorted[i], c);
      if !goesFirst { break; }
      i := i + 1;
    }
    r := sorted[..i] + [c] + sorted[i..];
    assert sorted == sorted[..i] + sorted[i..];
  }

  method SortCands(list: seq<Cand>) returns (sorted: seq<Cand>)
    requires forall i :: 0 <= i < |list| ==> |list[i].rank| == 33
    requires forall i, j :: 0 <= i < j < |list| ==> list[i].pub != list[j].pub
    ensures Sorted(sorted) && forall c :: c in sorted <==> c in list
  {
    sorted := [];
    hide Less, Value, Sorted;
    EmptySorted();
    for i := 0 to |list|
      invariant Sorted(sorted) && forall c :: c in sorted <==> c in list[..i]
    {
      assert list[..i + 1] == list[..i] + [list[i]];
      sorted := Place(sorted, list[i]);
    }
    assert list[..|list|] == list;
  }

  lemma EmptySorted()
    ensures Sorted([])
  {
  }

  /** The schedule ranks the table, and its head leads. */
  ghost predicate Scheduled(vrf: map<Peer, Output>, weight: uint32, schedule: seq<Peer>, leader: Option<Peer>) {
    && Usable(vrf, weight) && Ranked(schedule, vrf, weight)
    && leader == if schedule == [] then None else Some(schedule[0])
  }

  /** A candidate carries the rank of its peer's output. */
  ghost predicate Graded(d: Cand, vrf: map<Peer, Output>, weight: uint32) {
    weight > 0 && d.pub in vrf && |d.rank| == 33 && Value(d.rank) == ExactRank(vrf[d.pub].y, weight as nat)
  }

  /** One graded candidate for each of the peers. */
  ghost predicate GradesAll(list: seq<Cand>, peers: set<Peer>, vrf: map<Peer, Output>, weight: uint32) {
    && (forall i :: 0 <= i < |list| ==> Graded(list[i], vrf, weight) && list[i].pub in peers)
    && (forall i, j :: 0 <= i < j < |list| ==> list[i].pub != list[j].pub)
    && forall p :: p in peers ==> exists d :: d in list && d.pub == p
  }

  lemma GradeOneMore(list: seq<Cand>, peers: set<Peer>, vrf: map<Peer, Output>, weight: uint32, d: Cand)
    requires GradesAll(list, peers, vrf, weight) && Graded(d, vrf, weight) && d.pub !in peers
    ensures GradesAll(list + [d], peers + {d.pub}, vrf, weight)
  {
    hide Graded;
    forall p | p in peers + {d.pub} ensures exists e :: e in list + [d] && e.pub == p {
      if p == d.pub {
        assert d in list + [d];
      } else {
        var e :| e in list && e.pub == p;
        assert e in list + [d];
      }
    }
  }

  /** The peers of the sorted candidates are the ranked schedule. */
  lemma SortedIsRanked(list: seq<Cand>, sorted: seq<Cand>, vrf: map<Peer, Output>, weight: uint32, s: seq<Peer>)
    requires weight > 0 && GradesAll(list, vrf.Keys, vrf, weight) && Sorted(sorted)
    requires forall d :: d in sorted <==> d in list
    requires |s| == |sorted| && forall i :: 0 <= i < |s| ==> s[i] == sorted[i].pub
    ensures Ranked(s, vrf, weight)
  {
    hide ExactRank, Value;
    forall i | 0 <= i < |sorted| ensures Graded(sorted[i], vrf, weight) { assert sorted[i] in list; }
    forall i, j | 0 <= i < j < |s| ensures Before(vrf, weight, s[i], s[j]) {
      assert Less(sorted[i], sorted[j]);
    }
    forall p | p in vrf ensures p in s {
      var d :| d in list && d.pub == p;
      var i :| 0 <= i < |sorted| && sorted[i] == d by { assert d in sorted; }
      assert s[i] == p;
    }
  }

  class Service {
    const c: Crypto
    const weight: uint32
    var cmt: map<Peer, Bytes>
    var rev: map<Peer, Bytes>
    var vrf: map<Peer, Output>
    var pending: map<Peer, Stash>
    var ent: map<Peer, uint32>
    var schedule: seq<Peer>
    var leader: Option<Peer>
    ghost var delivered: seq<Msg>   // the commits, reveals and VRF messages handled so far

    ghost function View(): Tables
      reads this
    {
      Tables(cmt, rev, vrf, pending)
    }

    /** The tables are what the messages make of them, and the schedule ranks the VRF table. */
    ghost predicate Valid()
      reads this
    {
      && View() == Run(c, delivered) && Scheduled(vrf, weight, schedule, leader)
      && forall p :: p in pending ==> |pending[p].y| == 32
    }

    constructor (c: Crypto, weight: uint32)
      requires weight >= Q_ONE   // see WeightQ16
      ensures Valid() && delivered == [] && this.c == c && this.weight == weight
    {
      this.c, this.weight := c, weight;
      cmt, rev, vrf, pending, ent, schedule, leader, delivered := map[], map[], map[], map[], map[], [], None, [];
    }

    /** Rank every peer of the VRF table. */
    method Grade() returns (list: seq<Cand>)
      requires Usable(vrf, weight)
      ensures GradesAll(list, vrf.Keys, vrf, weight)
    {
      list := [];
      var rest := vrf.Keys;
      assert GradesAll(list, {}, vrf, weight);
      hide GradesAll, Value, ExactRank;
      while rest != {}
        invariant rest <= vrf.Keys && GradesAll(list, vrf.Keys - rest, vrf, weight)
        decreases |rest|
      {
        var p :| p in rest;
        var rank := RankValue(vrf[p].y, weight);
        GradeOneMore(list, vrf.Keys - rest, vrf, weight, Cand(p, rank));
        assert vrf.Keys - (rest - {p}) == (vrf.Keys - rest) + {p};
        list := list + [Cand(p, rank)];
        rest := rest - {p};
      }
      assert vrf.Keys - rest == vrf.Keys;
    }

    ghost function RankAt(p: Peer): nat
      requires weight > 0 && p in vrf
      reads this`vrf
    {
      ExactRank(vrf[p].y, weight as nat)
    }

    /** Rebuild the schedule from all known outputs. */
    method UpdateLeader()
      requires Usable(vrf, weight) && (|vrf| == 0 ==> Scheduled(vrf, weight, schedule, leader))
      modifies this`schedule, this`leader
      ensures Scheduled(vrf, weight, schedule, leader)
      ensures forall i, j :: 0 <= i < j < |schedule| ==>
        schedule[i] in vrf && schedule[j] in vrf && (RankAt(schedule[i]) < RankAt(schedule[j])
        || (RankAt(schedule[i]) == RankAt(schedule[j]) && schedule[i] < schedule[j]))
      ensures schedule != [] ==> leader == Some(schedule[0])
    {
      if |vrf| == 0 { return; }
      var list := Grade();
      GradedRanks(list, vrf.Keys, vrf, weight);
      var sorted := SortCands(list);
      var sched := [];
      for i := 0 to |sorted|
        invariant |sched| == i && forall k :: 0 <= k < i ==> sched[k] == sorted[k].pub
      {
        sched := sched + [sorted[i].pub];
      }
      SortedIsRanked(list, sorted, vrf, weight, sched);
      schedule := sched;
      if |sched| > 0 { leader := Some(sched[0]); }
      RankedNotEmpty(sched, vrf, weight);
    }
  
    method OnCommit(m: Msg)
      requires Valid() && m.Commit?
      modifies this`cmt, this`delivered
      ensures Valid() && delivered == old(delivered) + [m]
      ensures cmt == if |m.commit| == 32 then old(cmt)[m.pub := m.commit] else old(cmt)
    {
      RunSnoc(c, delivered, m);
      hide Run, Scheduled;
      delivered := delivered + [m];
      if |m.commit| != 32 { return; }
      cmt := cmt[m.pub := m.commit];
    }

    method OnReveal(m: Msg)
      requires Valid() && m.Reveal?
      modifies this`rev, this`vrf, this`pending, this`schedule, this`leader, this`delivered
      ensures Valid() && delivered == old(delivered) + [m]
      ensures var filed := |m.seed| > 0 && |m.commit| == 32 && (m.pub in cmt ==> c.opens(cmt[m.pub], m.seed));
        rev == (if filed then old(rev)[m.pub := m.seed] else old(rev))
        && if filed && m.pub in old(pending) && m.seed <= old(pending)[m.pub].input
          && c.verify(m.pub, old(pending)[m.pub].input, old(pending)[m.pub].y, old(pending)[m.pub].proof)
        then vrf == old(vrf)[m.pub := Output(old(pending)[m.pub].y, old(pending)[m.pub].proof)]
          && pending == old(pending) - {m.pub}
        else vrf == old(vrf) && pending == old(pending)
    {
      RunSnoc(c, delivered, m);
      hide Run, Scheduled, Usable;
      delivered := delivered + [m];
      if |m.seed| == 0 || |m.commit| != 32 { return; }
      if m.pub in cmt && !c.opens(cmt[m.pub], m.seed) { return; }
      rev := rev[m.pub := m.seed];
      PromotePending(m.pub, m.seed);
    }

    /** Validate a VRF that arrived before the seed. */
    method PromotePending(p: Peer, seed: Bytes)
      requires Scheduled(vrf, weight, schedule, leader) && forall q :: q in pending ==> |pending[q].y| == 32
      modifies this`vrf, this`pending, this`schedule, this`leader
      ensures Scheduled(vrf, weight, schedule, leader)
      ensures if p in old(pending) && seed <= old(pending)[p].input
          && c.verify(p, old(pending)[p].input, old(pending)[p].y, old(pending)[p].proof)
        then vrf == old(vrf)[p := Output(old(pending)[p].y, old(pending)[p].proof)] && pending == old(pending) - {p}
        else vrf == old(vrf) && pending == old(pending)
    {
      if p in pending {
        var pend := pending[p];
        var good := HasPrefix(pend.input, seed);
        if good && c.verify(p, pend.input, pend.y, pend.proof) {
          StillUsable(vrf, weight, schedule, leader, p, Output(pend.y, pend.proof));
          hide Scheduled, Usable;
          vrf := vrf[p := Output(pend.y, pend.proof)];
          pending := pending - {p};
          UpdateLeader();
        }
      }
    }

    method OnVRF(m: Msg)
      requires Valid() && m.VRF?
      modifies this`vrf, this`pending, this`schedule, this`leader, this`delivered
      ensures Valid() && delivered == old(delivered) + [m]
      ensures var seed := if m.pub in rev then rev[m.pub] else [];
        var formed := |m.input| > 0 && |m.y| == 32 && |m.proof| > 0;
        pending == (if formed && seed == [] then old(pending)[m.pub := Stash(m.input, m.y, m.proof)] else old(pending))
        && vrf == if formed && seed != [] && seed <= m.input && c.verify(m.pub, m.input, m.y, m.proof)
        then old(vrf)[m.pub := Output(m.y, m.proof)] else old(vrf)
    {
      RunSnoc(c, delivered, m);
      hide Run, Scheduled, Usable;
      delivered := delivered + [m];
      if |m.input| == 0 || |m.y| != 32 || |m.proof| == 0 { return; }
      var seed := if m.pub in rev then rev[m.pub] else [];
      if |seed| == 0 {
        pending := pending[m.pub := Stash(m.input, m.y, m.proof)];
        return;
      }
      var good := HasPrefix(m.input, seed);
      if !good { return; }
      if !c.verify(m.pub, m.input, m.y, m.proof) { return; }
      StillUsable(vrf, weight, schedule, leader, m.pub, Output(m.y, m.proof));
      vrf := vrf[m.pub := Output(m.y, m.proof)];
      UpdateLeader();
    }

    /** Entropy reports rebuild the schedule and leave it as it was. */
    method OnEntropy(pub: Peer, hnorm: uint32)
      requires Valid()
      modifies this`ent, this`schedule, this`leader
      ensures Valid() && schedule == old(schedule) && leader == old(leader) && ent == old(ent)[pub := hnorm]
    {
      ent := ent[pub := hnorm];
      UpdateLeader();
      RankedUnique(schedule, old(schedule), vrf, weight);
    }
  }

  /** Two services that handled the same messages, commits first, in any two orders, agree on the
      schedule and the leader. */
  lemma SameSchedule(s: Service, s': Service)
    requires s.Valid() && s'.Valid() && s.c == s'.c && s.weight == s'.weight
    requires Single(s.delivered) && Single(s'.delivered) && Sent(s.delivered) == Sent(s'.delivered)
    requires CommitsFirst(s.delivered) && CommitsFirst(s'.delivered)
    ensures s.vrf == s'.vrf && s.schedule == s'.schedule && s.leader == s'.leader
  {
    DeliveryOrderIrrelevant(s.c, s.delivered, s'.delivered);
    RankedUnique(s.schedule, s'.schedule, s.vrf, s.weight);
  }

  lemma StillUsable(vrf: map<Peer, Output>, weight: uint32, schedule: seq<Peer>, leader: Option<Peer>, p: Peer,
      out: Output)
    requires Scheduled(vrf, weight, schedule, leader) && |out.y| == 32
    ensures Usable(vrf[p := out], weight) && |vrf[p := out]| > 0
  {
    assert p in vrf[p := out];
  }

  lemma RunSnoc(c: Crypto, ms: seq<Msg>, m: Msg)
    ensures Run(c, ms + [m]) == Next(c, Run(c, ms), m)
  {
    assert (ms + [m])[..|ms|] == ms;
  }

  method HasPrefix(input: Bytes, seed: Bytes) returns (good: bool)
    ensures good <==> seed <= input
  {
    if |input| < |seed| { return false; }
    for i := 0 to |seed|
      invariant seed[..i] == input[..i]
    {
      if input[i] != seed[i] { return false; }
    }
    return true;
  }

  lemma GradedRanks(list: seq<Cand>, peers: set<Peer>, vrf: map<Peer, Output>, weight: uint32)
    requires GradesAll(list, peers, vrf, weight)
    ensures forall i :: 0 <= i < |list| ==> |list[i].rank| == 33
    ensures forall i, j :: 0 <= i < j < |list| ==> list[i].pub != list[j].pub
  {
  }

  lemma RankedNotEmpty(s: seq<Peer>, vrf: map<Peer, Output>, weight: uint32)
    requires weight > 0 && |vrf| > 0 && Ranked(s, vrf, weight)
    ensures s != []
  {
    assert |vrf.Keys| > 0;
    var p :| p in vrf;
    assert p in s;
  }
}
