/** The reveal and the VRF handler of the AION election each work in two critical sections: one reads
    the commit or the seed on file, the other acts on what was read.  What other deliveries between
    the two change, over whole runs, and for whom.  One goroutine serves each topic, so at most one
    handler of each kind is under way. */
module AionDivided {
  import opened AionSchedule
  import opened Options

  /** The undivided handler admits the peer and the divided one does not, exactly when a seed is on file
      at the end that the VRF proves, and at the look there was none that it proves. */
  lemma DividedLosesIff(c: Crypto, t: Tables, v: Msg, look: Bytes)
    requires v.VRF? && WellFormed(v) && v.pub !in t.vrf
    ensures v.pub in Evaluated(c, t, v).vrf && v.pub !in AfterLook(c, t, v, look).vrf <==>
      ProvesOnFile(c, v, SeedOf(t, v.pub)) && !ProvesOnFile(c, v, look)
  {
    hide Proves;
  }

  predicate ProvesOnFile(c: Crypto, v: Msg, seed: Bytes)
    requires v.VRF?
  {
    |seed| > 0 && Proves(c, v.pub, seed, Stash(v.input, v.y, v.proof))
  }

  // ---------- runs of critical sections ----------

  /** A critical section of a handler that was delivered m: the commit handler has one, the reveal handler
      checks the commit and files the seed, the VRF handler looks up the seed and acts on it. */
  datatype Section = Keep(m: Msg) | Check(m: Msg) | File(m: Msg) | Look(m: Msg) | Act(m: Msg)

  datatype Looked = Looked(m: Msg, seed: Bytes)

  /** The tables, the reveal that passed its check, and the VRF message whose seed was looked up. */
  datatype State = State(t: Tables, checked: Option<Msg>, looked: Option<Looked>)

  const START := State(NONE, None, None)

  /** The handler of the message has such a section; a malformed message gets to none. */
  ghost predicate Typed(e: Section) {
    WellFormed(e.m) && (e.Keep? ==> e.m.Commit?) && (e.Check? || e.File? ==> e.m.Reveal?)
    && (e.Look? || e.Act? ==> e.m.VRF?)
  }

  ghost predicate Fits(s: State, e: Section) {
    Typed(e) &&
    match e
    case Keep(_) => true
    case Check(_) => s.checked.None?
    case File(m) => s.checked == Some(m)
    case Look(_) => s.looked.None?
    case Act(m) => s.looked.Some? && s.looked.value.m == m
  }

  ghost function Do(c: Crypto, s: State, e: Section): State
    requires Fits(s, e)
  {
    match e
    case Keep(m) => s.(t := Committed(s.t, m))
    case Check(m) => s.(checked := if OpensOnFile(c, s.t, m) then Some(m) else None)
    case File(m) => s.(t := Filed(c, s.t, m), checked := None)
    case Look(m) => s.(looked := Some(Looked(m, SeedOf(s.t, m.pub))))
    case Act(m) => s.(t := AfterLook(c, s.t, m, s.looked.value.seed), looked := None)
  }

  ghost predicate Follow(c: Crypto, es: seq<Section>)
    decreases |es|, 0
  {
    es == [] || (Follow(c, es[..|es| - 1]) && Fits(After(c, es[..|es| - 1]), es[|es| - 1]))
  }

  ghost function After(c: Crypto, es: seq<Section>): State
    requires Follow(c, es)
    decreases |es|, 1
  {
    if es == [] then START else Do(c, After(c, es[..|es| - 1]), es[|es| - 1])
  }

  /** Each peer sends at most one message of each kind, in any number of copies. */
  ghost predicate OneEach(es: seq<Section>) {
    forall i, j :: 0 <= i < |es| && 0 <= j < |es| && SameSlot(es[i].m, es[j].m) ==> es[i].m == es[j].m
  }

  /** A VRF handler looked at l and acted at i. */
  ghost predicate Window(es: seq<Section>, l: nat, i: nat) {
    l < i < |es| && es[i].Act? && es[l] == Look(es[i].m) && forall k :: l < k < i ==> !es[k].Look? && !es[k].Act?
  }

  ghost predicate Files(es: seq<Section>, j: nat) {
    j < |es| && es[j].File?
  }

  /** A seed was filed, outside the time from look to act, that the VRF proves. */
  ghost predicate Meets(c: Crypto, es: seq<Section>, l: nat, i: nat, j: nat) {
    Window(es, l, i) && Files(es, j) && Pair(c, es[j].m, es[i].m) && (j < l || i < j)
  }

  // ---------- what the sections make of the tables ----------

  ghost predicate FiledTold(es: seq<Section>, rev: map<Peer, Bytes>) {
    && (forall j: nat :: Files(es, j) ==> Filing(es[j].m, rev))
    && forall p :: p in rev ==> exists j: nat :: Files(es, j) && es[j].m.pub == p
  }

  ghost predicate Filing(r: Msg, rev: map<Peer, Bytes>) {
    r.Reveal? && |r.seed| > 0 && r.pub in rev && rev[r.pub] == r.seed
  }

  /** The seed looked up is the one filed before the look, if one was. */
  ghost predicate LookTold(es: seq<Section>, look: Option<Looked>) {
    look.Some? ==> look.value.m.VRF? && exists l: nat :: LooksAt(es, l, look.value)
  }

  ghost predicate LooksAt(es: seq<Section>, l: nat, look: Looked) {
    && l < |es| && es[l] == Look(look.m) && (forall k: nat :: l < k < |es| ==> !es[k].Look? && !es[k].Act?)
    && (forall j: nat :: Files(es, j) && j < l && es[j].m.pub == look.m.pub ==>
        es[j].m.Reveal? && look.seed == es[j].m.seed)
    && (|look.seed| > 0 ==> exists j: nat :: Files(es, j) && j < l && es[j].m.pub == look.m.pub)
  }

  /** What the stash holds was put there by an act. */
  ghost predicate StashTold(es: seq<Section>, pending: map<Peer, Stash>) {
    forall p :: p in pending ==> exists l: nat, i: nat :: Window(es, l, i) && es[i].m == FromStash(p, pending[p])
  }

  /** A VRF message that was acted on is in the table, or waits for its seed, or does not prove the seed filed. */
  ghost predicate ActsTold(c: Crypto, es: seq<Section>, t: Tables) {
    forall l: nat, i: nat :: Window(es, l, i) ==> es[i].m.VRF? && Placed(c, t, es[i].m)
  }

  ghost predicate Placed(c: Crypto, t: Tables, v: Msg)
    requires v.VRF?
  {
    v.pub in t.vrf || v.pub in t.pending || (v.pub in t.rev && !ProvesOnFile(c, v, t.rev[v.pub]))
  }

  /** Some handling of the peer's VRF message meets its seed and gives the output. */
  ghost predicate Met(c: Crypto, es: seq<Section>, p: Peer, out: Output) {
    exists l: nat, i: nat, j: nat :: Meets(c, es, l, i, j) && Gives(es[i].m, p, out)
  }

  ghost predicate OutputsTold(c: Crypto, es: seq<Section>, vrf: map<Peer, Output>) {
    && (forall l: nat, i: nat, j: nat :: Meets(c, es, l, i, j) ==> es[i].m.pub in vrf)
    && forall p :: p in vrf ==> Met(c, es, p, vrf[p])
  }

  ghost predicate Gives(v: Msg, p: Peer, out: Output) {
    v.VRF? && v.pub == p && out == Output(v.y, v.proof)
  }

  ghost predicate Told(c: Crypto, es: seq<Section>, s: State) {
    && FiledTold(es, s.t.rev) && LookTold(es, s.looked) && StashTold(es, s.t.pending)
    && ActsTold(c, es, s.t) && OutputsTold(c, es, s.t.vrf)
  }

  // ---------- one section more ----------

  ghost predicate Snoc(es: seq<Section>, e: Section, es': seq<Section>) {
    |es'| == |es| + 1 && es'[|es|] == e && forall k :: 0 <= k < |es| ==> es'[k] == es[k]
  }

  lemma Longer(c: Crypto, es: seq<Section>, e: Section, es': seq<Section>)
    requires Snoc(es, e, es')
    ensures forall j: nat :: Files(es', j) <==> Files(es, j) || (j == |es| && e.File?)
    ensures forall l: nat, i: nat :: Window(es, l, i) ==> Window(es', l, i)
    ensures forall l: nat, i: nat :: Window(es', l, i) ==> Window(es, l, i) || (i == |es| && e.Act?)
    ensures forall l: nat, i: nat, j: nat :: Meets(c, es, l, i, j) ==> Meets(c, es', l, i, j)
    ensures forall l: nat, i: nat, j: nat :: Meets(c, es', l, i, j) ==>
      Meets(c, es, l, i, j) || (j == |es| && e.File?) || (i == |es| && e.Act?)
  {
    hide Pair;
    forall l: nat, i: nat | Window(es', l, i) ensures Window(es, l, i) || (i == |es| && e.Act?) {
      if i < |es| {
        forall k | l < k < i ensures !es[k].Look? && !es[k].Act? { assert es'[k] == es[k]; }
      }
    }
  }

  lemma FiledKept(c: Crypto, es: seq<Section>, e: Section, es': seq<Section>, rev: map<Peer, Bytes>)
    requires FiledTold(es, rev) && Snoc(es, e, es') && !e.File?
    ensures FiledTold(es', rev)
  {
    hide Filing;
    forall p | p in rev ensures exists j: nat :: Files(es', j) && es'[j].m.pub == p {
      var j: nat :| Files(es, j) && es[j].m.pub == p;
      assert Files(es', j);
    }
  }

  lemma LookKept(es: seq<Section>, e: Section, es': seq<Section>, look: Option<Looked>)
    requires LookTold(es, look) && Snoc(es, e, es') && !e.Look? && !e.Act?
    ensures LookTold(es', look)
  {
    if look.Some? {
      var l: nat :| LooksAt(es, l, look.value);
      LooksAtKept(es, e, es', l, look.value);
    }
  }

  lemma LooksAtKept(es: seq<Section>, e: Section, es': seq<Section>, l: nat, look: Looked)
    requires LooksAt(es, l, look) && Snoc(es, e, es') && !e.Look? && !e.Act?
    ensures LooksAt(es', l, look)
  {
    assert forall j: nat :: j < l ==> (Files(es', j) <==> Files(es, j));
    if |look.seed| > 0 {
      var j: nat :| Files(es, j) && j < l && es[j].m.pub == look.m.pub;
      assert Files(es', j);
    }
  }

  lemma StashKept(c: Crypto, es: seq<Section>, e: Section, es': seq<Section>, pending: map<Peer, Stash>)
    requires StashTold(es, pending) && Snoc(es, e, es')
    ensures StashTold(es', pending)
  {
    Longer(c, es, e, es');
    forall p | p in pending ensures exists l: nat, i: nat :: Window(es', l, i) && es'[i].m == FromStash(p, pending[p]) {
      var l: nat, i: nat :| Window(es, l, i) && es[i].m == FromStash(p, pending[p]);
      assert Window(es', l, i);
    }
  }

  lemma ActsKept(c: Crypto, es: seq<Section>, e: Section, es': seq<Section>, t: Tables)
    requires ActsTold(c, es, t) && Snoc(es, e, es') && !e.Act?
    ensures ActsTold(c, es', t)
  {
    Longer(c, es, e, es');
  }

  lemma StillMet(c: Crypto, es: seq<Section>, e: Section, es': seq<Section>, p: Peer, out: Output)
    requires Snoc(es, e, es') && Met(c, es, p, out)
    ensures Met(c, es', p, out)
  {
    Longer(c, es, e, es');
    var l: nat, i: nat, j: nat :| Meets(c, es, l, i, j) && Gives(es[i].m, p, out);
    hide Gives;
    assert Meets(c, es', l, i, j);
  }

  lemma OutputsKept(c: Crypto, es: seq<Section>, e: Section, es': seq<Section>, vrf: map<Peer, Output>)
    requires OutputsTold(c, es, vrf) && Snoc(es, e, es')
    requires forall l: nat, i: nat, j: nat :: Meets(c, es', l, i, j) ==> Meets(c, es, l, i, j)
    ensures OutputsTold(c, es', vrf)
  {
    hide Met;
    forall p | p in vrf ensures Met(c, es', p, vrf[p]) { StillMet(c, es, e, es', p, vrf[p]); }
  }

  /** The commit handler and the two checks read the tables of interest and leave them. */
  lemma QuietStep(c: Crypto, es: seq<Section>, s: State, e: Section, es': seq<Section>)
    requires Told(c, es, s) && Fits(s, e) && Snoc(es, e, es') && (e.Keep? || e.Check?)
    ensures Told(c, es', Do(c, s, e))
  {
    Longer(c, es, e, es');
    var s' := Do(c, s, e);
    assert s'.t == s.t.(cmt := s'.t.cmt) && s'.looked == s.looked;
    FiledKept(c, es, e, es', s.t.rev);
    LookKept(es, e, es', s.looked);
    StashKept(c, es, e, es', s.t.pending);
    ActsKept(c, es, e, es', s.t);
    OutputsKept(c, es, e, es', s.t.vrf);
    hide Meets, Window, FiledTold, LookTold, StashTold, OutputsTold, Snoc;
  }

  lemma LookStep(c: Crypto, es: seq<Section>, s: State, e: Section, es': seq<Section>)
    requires Told(c, es, s) && Fits(s, e) && Snoc(es, e, es') && e.Look?
    ensures Told(c, es', Do(c, s, e))
  {
    Longer(c, es, e, es');
    var s' := Do(c, s, e);
    FiledKept(c, es, e, es', s.t.rev);
    StashKept(c, es, e, es', s.t.pending);
    ActsKept(c, es, e, es', s.t);
    OutputsKept(c, es, e, es', s.t.vrf);
    hide Meets, Window, StashTold, OutputsTold, ActsTold;
    assert LooksAt(es', |es|, s'.looked.value);
  }

  // ---------- a seed is filed ----------

  lemma SeedFiled(es: seq<Section>, e: Section, es': seq<Section>, rev: map<Peer, Bytes>)
    requires FiledTold(es, rev) && Snoc(es, e, es') && OneEach(es') && e.File? && e.m.Reveal? && |e.m.seed| > 0
    ensures e.m.pub in rev ==> rev[e.m.pub] == e.m.seed
    ensures FiledTold(es', rev[e.m.pub := e.m.seed])
  {
    var rev' := rev[e.m.pub := e.m.seed];
    forall j: nat | Files(es, j) && es[j].m.pub == e.m.pub ensures es[j].m == e.m {
      assert Filing(es[j].m, rev);
      assert SameSlot(es'[j].m, es'[|es|].m);
    }
    forall p | p in rev' ensures exists j: nat :: Files(es', j) && es'[j].m.pub == p {
      if p == e.m.pub {
        assert Files(es', |es|);
      } else {
        var j: nat :| Files(es, j) && es[j].m.pub == p;
        assert Files(es', j);
      }
    }
  }

  /** All acts of a peer are on one message, and the stash holds nothing else. */
  lemma StashIsTheirs(es: seq<Section>, pending: map<Peer, Stash>, i: nat)
    requires StashTold(es, pending) && OneEach(es) && i < |es| && es[i].m.VRF? && es[i].m.pub in pending
    ensures FromStash(es[i].m.pub, pending[es[i].m.pub]) == es[i].m
  {
    var p := es[i].m.pub;
    var l: nat, k: nat :| Window(es, l, k) && es[k].m == FromStash(p, pending[p]);
    assert SameSlot(es[k].m, es[i].m);
  }

  lemma ActsAfterFile(c: Crypto, es: seq<Section>, s: State, e: Section, es': seq<Section>)
    requires ActsTold(c, es, s.t) && FiledTold(es, s.t.rev) && Fits(s, e)
    requires Snoc(es, e, es') && OneEach(es') && e.File?
    ensures ActsTold(c, es', Do(c, s, e).t)
  {
    Longer(c, es, e, es');
    SeedFiled(es, e, es', s.t.rev);
    hide Window, Proves, FiledTold, OneEach;
  }

  lemma FilesPlaced(c: Crypto, t: Tables, r: Msg, v: Msg)
    requires r.Reveal? && |r.seed| > 0 && Pair(c, r, v) && Placed(c, t, v)
    requires r.pub in t.rev ==> t.rev[r.pub] == r.seed
    requires v.pub in t.pending ==> FromStash(v.pub, t.pending[v.pub]) == v
    ensures v.pub in Filed(c, t, r).vrf
  {
    hide Proves;
  }

  lemma OneEachBefore(es: seq<Section>, e: Section, es': seq<Section>)
    requires OneEach(es') && Snoc(es, e, es')
    ensures OneEach(es)
  {
    assert forall k :: 0 <= k < |es| ==> es'[k] == es[k];
  }

  lemma MeetsAtFile(c: Crypto, es: seq<Section>, t: Tables, e: Section, es': seq<Section>, l: nat, i: nat)
    requires FiledTold(es, t.rev) && StashTold(es, t.pending) && ActsTold(c, es, t)
    requires Snoc(es, e, es') && OneEach(es') && e.File? && e.m.Reveal? && |e.m.seed| > 0
    requires Window(es, l, i) && Pair(c, e.m, es[i].m)
    ensures es[i].m.pub in Filed(c, t, e.m).vrf
  {
    SeedFiled(es, e, es', t.rev);
    OneEachBefore(es, e, es');
    hide FiledTold, OneEach, Snoc, Filed;
    assert Placed(c, t, es[i].m);
    if es[i].m.pub in t.pending { StashIsTheirs(es, t.pending, i); }
    FilesPlaced(c, t, e.m, es[i].m);
  }

  lemma PromotedIsMet(c: Crypto, es: seq<Section>, t: Tables, e: Section, es': seq<Section>)
    requires StashTold(es, t.pending) && Snoc(es, e, es') && e.File? && e.m.Reveal? && e.m.pub in t.pending
    requires Proves(c, e.m.pub, e.m.seed, t.pending[e.m.pub])
    ensures Met(c, es', e.m.pub, Output(t.pending[e.m.pub].y, t.pending[e.m.pub].proof))
  {
    Longer(c, es, e, es');
    var p := e.m.pub;
    var l: nat, i: nat :| Window(es, l, i) && es[i].m == FromStash(p, t.pending[p]);
    hide Proves;
    assert Meets(c, es', l, i, |es|);
  }

  lemma OutputAtFile(c: Crypto, es: seq<Section>, t: Tables, e: Section, es': seq<Section>, p: Peer)
    requires StashTold(es, t.pending) && OutputsTold(c, es, t.vrf)
    requires Snoc(es, e, es') && e.File? && e.m.Reveal? && p in Filed(c, t, e.m).vrf
    ensures Met(c, es', p, Filed(c, t, e.m).vrf[p])
  {
    hide Proves, Met, Meets, StashTold, Snoc;
    if p == e.m.pub && p in t.pending && Proves(c, p, e.m.seed, t.pending[p]) {
      PromotedIsMet(c, es, t, e, es');
    } else {
      StillMet(c, es, e, es', p, t.vrf[p]);
    }
  }

  lemma OutputsAtFile(c: Crypto, es: seq<Section>, t: Tables, e: Section, es': seq<Section>)
    requires FiledTold(es, t.rev) && StashTold(es, t.pending) && ActsTold(c, es, t) && OutputsTold(c, es, t.vrf)
    requires Snoc(es, e, es') && OneEach(es') && e.File? && e.m.Reveal? && |e.m.seed| > 0
    ensures OutputsTold(c, es', Filed(c, t, e.m).vrf)
  {
    var vrf' := Filed(c, t, e.m).vrf;
    Longer(c, es, e, es');
    hide Proves, FiledTold, StashTold, ActsTold, OneEach, Met;
    forall l: nat, i: nat, j: nat | Meets(c, es', l, i, j) ensures es'[i].m.pub in vrf' {
      if !Meets(c, es, l, i, j) { MeetsAtFile(c, es, t, e, es', l, i); }
    }
    forall p | p in vrf' ensures Met(c, es', p, vrf'[p]) { OutputAtFile(c, es, t, e, es', p); }
  }

  lemma FileStep(c: Crypto, es: seq<Section>, s: State, e: Section, es': seq<Section>)
    requires Told(c, es, s) && Fits(s, e) && Snoc(es, e, es') && OneEach(es') && e.File?
    ensures Told(c, es', Do(c, s, e))
  {
    var s' := Do(c, s, e);
    SeedFiled(es, e, es', s.t.rev);
    LookKept(es, e, es', s.looked);
    StashKept(c, es, e, es', s.t.pending);
    ActsAfterFile(c, es, s, e, es');
    OutputsAtFile(c, es, s.t, e, es');
    assert StashTold(es', s'.t.pending);
    hide FiledTold, LookTold, StashTold, OutputsTold, ActsTold;
  }

  // ---------- a VRF handler acts ----------

  /** The act closes a window, and no other. */
  lemma ActCloses(es: seq<Section>, e: Section, es': seq<Section>, look: Looked, l: nat)
    requires LooksAt(es, l, look) && Snoc(es, e, es') && e == Act(look.m)
    ensures Window(es', l, |es|) && forall k: nat :: Window(es', k, |es|) ==> k == l
  {
    assert es'[l] == es[l] == Look(look.m);
    assert forall k: nat :: k < |es| ==> es'[k] == es[k];
  }

  lemma StashAtAct(c: Crypto, es: seq<Section>, e: Section, es': seq<Section>, pending: map<Peer, Stash>, l: nat)
    requires StashTold(es, pending) && Snoc(es, e, es') && Window(es', l, |es|) && e.m.VRF?
    ensures StashTold(es', pending[e.m.pub := Stash(e.m.input, e.m.y, e.m.proof)])
  {
    StashKept(c, es, e, es', pending);
    assert es'[|es|].m == FromStash(e.m.pub, Stash(e.m.input, e.m.y, e.m.proof));
  }

  lemma ActsAtAct(c: Crypto, es: seq<Section>, s: State, e: Section, es': seq<Section>, l: nat)
    requires ActsTold(c, es, s.t) && FiledTold(es, s.t.rev) && Fits(s, e) && Snoc(es, e, es') && e.Act?
    requires LooksAt(es, l, s.looked.value)
    ensures ActsTold(c, es', Do(c, s, e).t)
  {
    Longer(c, es, e, es');
    var look := s.looked.value;
    if |look.seed| > 0 {
      var j: nat :| Files(es, j) && j < l && es[j].m.pub == look.m.pub;
      assert Filing(es[j].m, s.t.rev);
    }
    hide Window, Proves, FiledTold, LooksAt;
  }

  lemma MeetsAtAct(c: Crypto, es: seq<Section>, s: State, e: Section, es': seq<Section>, l: nat, j: nat)
    requires FiledTold(es, s.t.rev) && Fits(s, e) && Snoc(es, e, es') && e.Act? && LooksAt(es, l, s.looked.value)
    requires Files(es, j) && j < l && Pair(c, es[j].m, e.m)
    ensures e.m.pub in Do(c, s, e).t.vrf
  {
    assert Filing(es[j].m, s.t.rev);
    hide FiledTold, Proves, Snoc;
  }

  lemma FoundAtLook(c: Crypto, es: seq<Section>, rev: map<Peer, Bytes>, look: Looked, l: nat) returns (j: nat)
    requires FiledTold(es, rev) && LooksAt(es, l, look) && look.m.VRF? && ProvesOnFile(c, look.m, look.seed)
    ensures Files(es, j) && j < l && Pair(c, es[j].m, look.m)
  {
    j :| Files(es, j) && j < l && es[j].m.pub == look.m.pub;
    assert Filing(es[j].m, rev);
  }

  lemma OutputsAtAct(c: Crypto, es: seq<Section>, s: State, e: Section, es': seq<Section>, l: nat)
    requires OutputsTold(c, es, s.t.vrf) && FiledTold(es, s.t.rev) && Fits(s, e) && Snoc(es, e, es') && e.Act?
    requires LooksAt(es, l, s.looked.value)
    ensures OutputsTold(c, es', Do(c, s, e).t.vrf)
  {
    var vrf, vrf', look := s.t.vrf, Do(c, s, e).t.vrf, s.looked.value;
    Longer(c, es, e, es');
    ActCloses(es, e, es', look, l);
    forall k: nat, i: nat, j: nat | Meets(c, es', k, i, j) ensures es'[i].m.pub in vrf' {
      if !Meets(c, es, k, i, j) {
        hide FiledTold, LooksAt, OutputsTold, Window;
        MeetsAtAct(c, es, s, e, es', l, j);
      }
    }
    forall p | p in vrf' ensures Met(c, es', p, vrf'[p]) {
      hide LooksAt, Window, Proves;
      if p == e.m.pub && ProvesOnFile(c, e.m, look.seed) {
        var j := FoundAtLook(c, es, s.t.rev, look, l);
        hide FiledTold, OutputsTold;
        assert Meets(c, es', l, |es|, j);
      } else {
        hide FiledTold, Meets, Met;
        StillMet(c, es, e, es', p, vrf[p]);
      }
    }
  }

  lemma ActStep(c: Crypto, es: seq<Section>, s: State, e: Section, es': seq<Section>)
    requires Told(c, es, s) && Fits(s, e) && Snoc(es, e, es') && e.Act?
    ensures Told(c, es', Do(c, s, e))
  {
    var l: nat :| LooksAt(es, l, s.looked.value);
    FiledKept(c, es, e, es', s.t.rev);
    ActCloses(es, e, es', s.looked.value, l);
    StashKept(c, es, e, es', s.t.pending);
    StashAtAct(c, es, e, es', s.t.pending, l);
    ActsAtAct(c, es, s, e, es', l);
    OutputsAtAct(c, es, s, e, es', l);
    hide FiledTold, StashTold, OutputsTold, ActsTold, Proves;
  }

  /** Over every run of critical sections, a peer is in the VRF table exactly when a seed that its VRF
      proves was filed outside the time some handler of the message took from look to act. */
  lemma {:induction false} TablesOfRun(c: Crypto, es: seq<Section>)
    requires Follow(c, es) && OneEach(es)
    ensures Told(c, es, After(c, es))
  {
    if es == [] {
    } else {
      var prefix, e := es[..|es| - 1], es[|es| - 1];
      assert OneEach(prefix);
      TablesOfRun(c, prefix);
      var s := After(c, prefix);
      assert Snoc(prefix, e, es);
      hide Told, Do, OneEach, Snoc;
      match e {
        case Keep(_) => QuietStep(c, prefix, s, e, es);
        case Check(_) => QuietStep(c, prefix, s, e, es);
        case File(_) => FileStep(c, prefix, s, e, es);
        case Look(_) => LookStep(c, prefix, s, e, es);
        case Act(_) => ActStep(c, prefix, s, e, es);
      }
    }
  }

  // ---------- every output was proved ----------

  ghost function Received(es: seq<Section>): set<Msg> {
    set e | e in es :: e.m
  }

  ghost predicate LookedProven(got: set<Msg>, look: Option<Looked>) {
    look.Some? && |look.value.seed| > 0 ==> SeedSent(got, look.value.m.pub, look.value.seed)
  }

  /** Whatever messages arrive and however their handlers interleave, every output in the VRF table was proved. */
  lemma {:induction false} OutputsAreProved(c: Crypto, es: seq<Section>)
    requires Follow(c, es)
    ensures Provenance(c, Received(es), After(c, es).t) && LookedProven(Received(es), After(c, es).looked)
  {
    if es != [] {
      var before, e, got := es[..|es| - 1], es[|es| - 1], Received(es);
      OutputsAreProved(c, before);
      var s := After(c, before);
      assert es == before + [e] && e in es && e.m in got;
      MoreReceived(c, Received(before), got, s.t);
      assert LookedProven(got, s.looked);
      SeedKnown(c, got, s.t, e.m.pub);
      hide Provenance, SeedSent, Received, Filed, AfterLook;
      match e {
        case Keep(m) => CommittedProvenance(c, got, s.t, m);
        case Check(_) =>
        case File(m) => FiledProvenance(c, got, s.t, m);
        case Look(_) =>
        case Act(m) => ActedProvenance(c, got, s.t, m, s.looked.value.seed);
      }
    }
  }

  /** At l and i a handler looked and acted on a VRF message with the output, whose proof verifies under the key
      of p; at j a seed of p that the input begins with was filed, before the look or after the act. */
  ghost predicate Earned(c: Crypto, es: seq<Section>, l: nat, i: nat, j: nat, p: Peer, out: Output) {
    && Window(es, l, i) && Files(es, j) && (j < l || i < j) && es[i].m.VRF? && es[j].m.Reveal?
    && es[j].m.pub == p && es[j].m.seed <= es[i].m.input && es[i].m == VRF(p, es[i].m.input, out.y, out.proof)
    && c.verify(p, es[i].m.input, out.y, out.proof)
  }

  lemma EarnedIffMet(c: Crypto, es: seq<Section>, p: Peer, out: Output)
    ensures Met(c, es, p, out) <==> exists l: nat, i: nat, j: nat :: Earned(c, es, l, i, j, p, out)
  {
    WindowBounds(es);
    hide Window;
    if Met(c, es, p, out) {
      var l: nat, i: nat, j: nat :| Meets(c, es, l, i, j) && Gives(es[i].m, p, out);
      assert Earned(c, es, l, i, j, p, out);
    }
    if l: nat, i: nat, j: nat :| Earned(c, es, l, i, j, p, out) {
      assert Meets(c, es, l, i, j);
    }
  }

  lemma WindowBounds(es: seq<Section>)
    ensures forall l: nat, i: nat :: Window(es, l, i) ==> l < i < |es|
  {
  }

  lemma OneOutput(c: Crypto, es: seq<Section>, p: Peer, out: Output, out': Output)
    requires OneEach(es) && Met(c, es, p, out) && Met(c, es, p, out')
    ensures out == out'
  {
    var l: nat, i: nat, j: nat :| Meets(c, es, l, i, j) && Gives(es[i].m, p, out);
    var l': nat, i': nat, j': nat :| Meets(c, es, l', i', j') && Gives(es[i'].m, p, out');
    assert SameSlot(es[i].m, es[i'].m);
  }

  lemma MetIsIn(c: Crypto, es: seq<Section>, vrf: map<Peer, Output>, p: Peer, out: Output)
    requires OutputsTold(c, es, vrf) && Met(c, es, p, out)
    ensures p in vrf && Met(c, es, p, vrf[p])
  {
    var l: nat, i: nat, j: nat :| Meets(c, es, l, i, j) && Gives(es[i].m, p, out);
    hide Met;
  }

  /** The VRF table holds exactly the outputs that were earned so. */
  lemma TableExactly(c: Crypto, es: seq<Section>, p: Peer, out: Output)
    requires Follow(c, es) && OneEach(es)
    ensures p in After(c, es).t.vrf && After(c, es).t.vrf[p] == out <==>
      exists l: nat, i: nat, j: nat :: Earned(c, es, l, i, j, p, out)
  {
    OutputsOfRun(c, es);
    EarnedIffMet(c, es, p, out);
    hide Follow, After, Window, OneEach, Met, Earned, Meets;
    var vrf := After(c, es).t.vrf;
    if Met(c, es, p, out) {
      MetIsIn(c, es, vrf, p, out);
      OneOutput(c, es, p, out, vrf[p]);
    }
  }

  // ---------- against undivided handlers ----------

  /** The messages handled, a reveal where it is checked and a VRF message where it is acted on. */
  ghost function Messages(es: seq<Section>): seq<Msg> {
    if es == [] then []
    else Messages(es[..|es| - 1]) + if Handles(es[|es| - 1]) then [es[|es| - 1].m] else []
  }

  ghost predicate Handles(e: Section) {
    e.Keep? || e.Check? || e.Act?
  }

  lemma {:induction false} MessagesSent(c: Crypto, es: seq<Section>)
    requires Follow(c, es)
    ensures forall k: nat :: k < |es| ==> Typed(es[k])
    ensures forall m :: m in Sent(Messages(es)) ==> exists k: nat :: k < |es| && Handles(es[k]) && es[k].m == m
    ensures forall k: nat :: k < |es| && Handles(es[k]) ==> es[k].m in Sent(Messages(es))
  {
    if es != [] {
      var prefix, e := es[..|es| - 1], es[|es| - 1];
      MessagesSent(c, prefix);
      SentSnoc(Messages(prefix), e.m);
      assert Snoc(prefix, e, es) && Messages(prefix) + [] == Messages(prefix);
      hide WellFormed, Follow;
      assert Typed(e);
      forall m | m in Sent(Messages(es)) ensures exists k: nat :: k < |es| && Handles(es[k]) && es[k].m == m {
        if m in Sent(Messages(prefix)) {
          var k: nat :| k < |prefix| && Handles(prefix[k]) && prefix[k].m == m;
          assert Handles(es[k]);
        } else {
          assert Handles(es[|es| - 1]);
        }
      }
    }
  }

  lemma {:induction false} MessagesSingle(c: Crypto, es: seq<Section>)
    requires Follow(c, es) && OneEach(es)
    ensures Single(Messages(es))
  {
    if es != [] {
      var prefix, e := es[..|es| - 1], es[|es| - 1];
      assert Snoc(prefix, e, es);
      OneEachBefore(prefix, e, es);
      MessagesSingle(c, prefix);
      MessagesSent(c, prefix);
      var ms := Messages(prefix);
      hide Follow, Messages, WellFormed, SameSlot;
      forall n | n in Sent(ms) && SameSlot(n, e.m) ensures n == e.m {
        var k: nat :| k < |prefix| && prefix[k].m == n;
        assert SameSlot(es[k].m, es[|es| - 1].m);
      }
      assert (ms + [e.m])[..|ms|] == ms && ms + [] == ms;
    }
  }

  /** The reveal was filed, or passed its check and is about to be. */
  ghost predicate Admitted(es: seq<Section>, s: State, r: Msg) {
    s.checked == Some(r) || exists j: nat :: Files(es, j) && es[j].m == r
  }

  lemma AdmittedNext(es: seq<Section>, s: State, e: Section, es': seq<Section>, s': State)
    requires Snoc(es, e, es')
    requires if e.File? then s.checked == Some(e.m) && s'.checked.None?
      else (s.checked.Some? ==> s'.checked == s.checked)
    ensures forall r :: Admitted(es', s', r) <==> (Admitted(es, s, r) || s'.checked == Some(r))
  {
    forall r ensures Admitted(es', s', r) <==> (Admitted(es, s, r) || s'.checked == Some(r)) {
      if e.File? && r == e.m { assert Files(es', |es|); }
      if j: nat :| Files(es, j) && es[j].m == r { assert Files(es', j); }
      if j: nat :| Files(es', j) && es'[j].m == r { assert j < |es| ==> Files(es, j); }
    }
  }

  /** Both ways of handling one more section keep the same commits and accept the same reveals. */
  lemma SameRevealsNext(c: Crypto, s: State, e: Section, sent: set<Msg>, acc: set<Msg>, u: Tables)
    requires Fits(s, e) && Handles(e) && Tallied(c, acc, sent, u) && Follows(sent, e.m) && u.cmt == s.t.cmt
    ensures Next(c, u, e.m).cmt == Do(c, s, e).t.cmt
    ensures Accept(c, acc, sent, e.m) == acc + if e.Check? && Do(c, s, e).checked == Some(e.m) then {e.m} else {}
  {
    if e.Check? { RevealOpens(c, acc, sent, u, e.m); }
    hide Tallied, Follows, Opens, Proves;
  }

  lemma HandledFollows(ms: seq<Msg>, m: Msg)
    requires Single(ms + [m]) && WellFormed(m)
    ensures Single(ms) && Follows(Sent(ms), m)
  {
    assert (ms + [m])[..|ms|] == ms;
  }

  lemma AcceptedSnoc(c: Crypto, ms: seq<Msg>, m: Msg)
    ensures Accepted(c, ms + [m]) == Accept(c, Accepted(c, ms), Sent(ms), m)
  {
    assert (ms + [m])[..|ms|] == ms;
  }

  lemma {:induction false} SameReveals(c: Crypto, es: seq<Section>)
    requires Follow(c, es) && OneEach(es)
    ensures Run(c, Messages(es)).cmt == After(c, es).t.cmt
    ensures forall r :: r in Accepted(c, Messages(es)) <==> Admitted(es, After(c, es), r)
  {
    if es != [] {
      var prefix, e := es[..|es| - 1], es[|es| - 1];
      assert Snoc(prefix, e, es);
      OneEachBefore(prefix, e, es);
      SameReveals(c, prefix);
      MessagesSingle(c, es);
      var ms, s := Messages(prefix), After(c, prefix);
      AdmittedNext(prefix, s, e, es, After(c, es));
      assert ms + [] == ms;
      hide Run, Accepted, Admitted, OneEach, Single, Snoc, Filed, AfterLook, WellFormed;
      if Handles(e) {
        RunSnoc(c, ms, e.m);
        AcceptedSnoc(c, ms, e.m);
        HandledFollows(ms, e.m);
        RunTallies(c, ms);
        SameRevealsNext(c, s, e, Sent(ms), Accepted(c, ms), Run(c, ms));
      }
    } else {
      assert forall r :: !Admitted(es, START, r);
    }
  }

  /** Each handling of the peer's VRF message looked before and acted after every filing of its seed. */
  ghost predicate AlwaysOvertaken(es: seq<Section>, p: Peer) {
    forall l: nat, i: nat, j: nat :: Window(es, l, i) && Files(es, j) && es[i].m.pub == p && es[j].m.pub == p ==>
      l < j < i
  }

  lemma {:induction false} ActHasLook(c: Crypto, es: seq<Section>, i: nat) returns (l: nat)
    requires Follow(c, es) && OneEach(es) && i < |es| && es[i].Act?
    ensures Window(es, l, i)
    decreases |es|
  {
    var prefix, e := es[..|es| - 1], es[|es| - 1];
    assert Snoc(prefix, e, es);
    OneEachBefore(prefix, e, es);
    if i < |prefix| {
      l := ActHasLook(c, prefix, i);
      Longer(c, prefix, e, es);
    } else {
      TablesOfRun(c, prefix);
      var look := After(c, prefix).looked.value;
      l :| LooksAt(prefix, l, look);
      ActCloses(prefix, e, es, look, l);
    }
  }

  /** A peer in the table of the divided handlers is a candidate. */
  lemma MetIsCandidate(c: Crypto, es: seq<Section>, p: Peer, out: Output)
    requires Follow(c, es) && OneEach(es) && Met(c, es, p, out)
    ensures !AlwaysOvertaken(es, p)
    ensures exists r, v :: Candidate(c, Accepted(c, Messages(es)), Sent(Messages(es)), r, v) && Gives(v, p, out)
  {
    var l: nat, i: nat, j: nat :| Meets(c, es, l, i, j) && Gives(es[i].m, p, out);
    SameReveals(c, es);
    MessagesSent(c, es);
    hide Follow, OneEach, Accepted, Messages, Sent, Proves;
    assert Admitted(es, After(c, es), es[j].m);
    assert Handles(es[i]);
    assert Candidate(c, Accepted(c, Messages(es)), Sent(Messages(es)), es[j].m, es[i].m);
  }

  /** The section that handled, or filed, the message of a candidate. */
  lemma SectionsOf(c: Crypto, es: seq<Section>, r: Msg, v: Msg) returns (i: nat, j: nat)
    requires Follow(c, es) && OneEach(es) && After(c, es).checked.None?
    requires Candidate(c, Accepted(c, Messages(es)), Sent(Messages(es)), r, v)
    ensures i < |es| && es[i] == Act(v) && Files(es, j) && es[j].m == r
  {
    SameReveals(c, es);
    MessagesSent(c, es);
    hide Follow, Accepted, Messages, Sent, Proves, After, OneEach;
    assert Admitted(es, After(c, es), r);
    j :| Files(es, j) && es[j].m == r;
    i :| i < |es| && Handles(es[i]) && es[i].m == v;
  }

  lemma OneMessage(es: seq<Section>, i: nat, k: nat)
    requires OneEach(es) && i < |es| && k < |es| && Typed(es[i]) && Typed(es[k]) && es[i].m.pub == es[k].m.pub
    requires (es[i].Act? && es[k].Act?) || (es[i].File? && es[k].File?)
    ensures es[i].m == es[k].m
  {
    assert SameSlot(es[i].m, es[k].m);
  }

  /** A candidate that was not always overtaken is in the table of the divided handlers. */
  lemma CandidateIsMet(c: Crypto, es: seq<Section>, r: Msg, v: Msg)
    requires Follow(c, es) && OneEach(es) && After(c, es).checked.None? && !AlwaysOvertaken(es, v.pub)
    requires Candidate(c, Accepted(c, Messages(es)), Sent(Messages(es)), r, v)
    ensures exists l: nat, i: nat, j: nat :: Meets(c, es, l, i, j) && es[i].m.pub == v.pub
  {
    var i0, j0 := SectionsOf(c, es, r, v);
    MessagesSent(c, es);
    hide Follow, Accepted, Messages, Sent, Proves, After, OneEach;
    var l: nat, i: nat, j: nat :| Window(es, l, i) && Files(es, j) && es[i].m.pub == v.pub && es[j].m.pub == v.pub
      && !(l < j < i);
    assert es[i].m == v by { OneMessage(es, i, i0); }
    assert es[j].m == r by { OneMessage(es, j, j0); }
    hide Typed, AlwaysOvertaken, Pair;
    assert Pair(c, r, v) && es[l].Look?;
    assert Meets(c, es, l, i, j);
  }

  lemma OutputsOfRun(c: Crypto, es: seq<Section>)
    requires Follow(c, es) && OneEach(es)
    ensures OutputsTold(c, es, After(c, es).t.vrf)
    ensures OutputsTallied(c, Accepted(c, Messages(es)), Sent(Messages(es)), Run(c, Messages(es)).vrf)
  {
    TablesOfRun(c, es);
    MessagesSingle(c, es);
    RunTallies(c, Messages(es));
    hide OutputsTold, OutputsTallied, Follow, After, Messages, Run;
  }

  lemma OnlyCandidates(c: Crypto, es: seq<Section>, p: Peer)
    requires Follow(c, es) && OneEach(es) && p in After(c, es).t.vrf
    ensures var u := Run(c, Messages(es)).vrf;
      p in u && u[p] == After(c, es).t.vrf[p] && !AlwaysOvertaken(es, p)
  {
    OutputsOfRun(c, es);
    MetIsCandidate(c, es, p, After(c, es).t.vrf[p]);
    hide Follow, After, Messages, Run, Accepted, Sent, OneEach, Met, Meets, AlwaysOvertaken, Candidate;
  }

  lemma AllCandidates(c: Crypto, es: seq<Section>, p: Peer)
    requires Follow(c, es) && OneEach(es) && After(c, es).checked.None?
    requires p in Run(c, Messages(es)).vrf && !AlwaysOvertaken(es, p)
    ensures p in After(c, es).t.vrf
  {
    OutputsOfRun(c, es);
    hide Follow, After, Messages, Run, Accepted, Sent, OneEach, Met, Meets, AlwaysOvertaken;
    var r, v :| Candidate(c, Accepted(c, Messages(es)), Sent(Messages(es)), r, v) && v.pub == p;
    CandidateIsMet(c, es, r, v);
  }

  /** With divided handlers the VRF table is the one of undivided handlers without the peers that were
      always overtaken. */
  lemma DividedHandlers(c: Crypto, es: seq<Section>)
    requires Follow(c, es) && OneEach(es) && After(c, es).checked.None?
    ensures var u := Run(c, Messages(es)).vrf;
      After(c, es).t.vrf == map p | p in u && !AlwaysOvertaken(es, p) :: u[p]
  {
    var d, u := After(c, es).t.vrf, Run(c, Messages(es)).vrf;
    hide Follow, After, Messages, Run, OneEach, AlwaysOvertaken;
    forall p | p in d ensures p in u && u[p] == d[p] && !AlwaysOvertaken(es, p) { OnlyCandidates(c, es, p); }
    forall p | p in u && !AlwaysOvertaken(es, p) ensures p in d { AllCandidates(c, es, p); }
  }

  /** So with commits first, two nodes that handled the same messages end with one VRF table if and only if
      the same candidates were always overtaken at both. */
  lemma NodesAgreeIff(c: Crypto, es: seq<Section>, fs: seq<Section>)
    requires Follow(c, es) && OneEach(es) && After(c, es).checked.None? && CommitsFirst(Messages(es))
    requires Follow(c, fs) && OneEach(fs) && After(c, fs).checked.None? && CommitsFirst(Messages(fs))
    requires Sent(Messages(es)) == Sent(Messages(fs))
    ensures After(c, es).t.vrf == After(c, fs).t.vrf <==>
      forall p :: p in Run(c, Messages(es)).vrf ==> (AlwaysOvertaken(es, p) <==> AlwaysOvertaken(fs, p))
  {
    MessagesSingle(c, es);
    MessagesSingle(c, fs);
    DeliveryOrderIrrelevant(c, Messages(es), Messages(fs));
    DividedHandlers(c, es);
    DividedHandlers(c, fs);
    var d, d', u := After(c, es).t.vrf, After(c, fs).t.vrf, Run(c, Messages(es)).vrf;
    hide Follow, After, Messages, Run, OneEach, AlwaysOvertaken, CommitsFirst, Single, Sent;
    forall p | p in u ensures (p in d <==> !AlwaysOvertaken(es, p)) && (p in d' <==> !AlwaysOvertaken(fs, p)) {}
  }
}
