/** L3 finality of one node: cells and devices attest to the blocks that L2 certifies and commits. */
module L3Finality {
  import opened BlockTree
  import opened Options
  import L2 = L2State

  type CellId = string
  type DeviceId = string
  type Note = L2.L3Note

  datatype CellStatus = Active | Offline | Slashed | Quarantined
  datatype Status = Pending | Final

  datatype QCRef = QCRef(block: BlockId, weight: nat)
  datatype Envelope = Envelope(block: BlockId, height: int, qcs: seq<QCRef>, cells: set<CellId>)

  datatype Counters = Counters(
    cells: set<CellId>, deviceVotes: set<DeviceId>, qcWeight: nat, qcs: seq<QCRef>, l2Committed: bool,
    parent: BlockId, height: int, firstSeen: int, envelope: Option<Envelope>, status: Status)

  type Table = map<BlockId, Counters>

  /** What finality asks for; the threshold is the share of the stake that descendants must carry. */
  datatype Params = Params(minCells: int, grace: int, threshold: real, maxMisbehavior: int)

  const DEFAULT_THRESHOLD: real := 0.6666667

  /** Parameters that are not positive take their defaults. */
  function WithDefaults(p: Params): (r: Params)
    ensures r.minCells > 0 && r.grace > 0 && r.threshold > 0.0 && r.maxMisbehavior > 0
    ensures (p.minCells > 0 ==> r.minCells == p.minCells) && (p.grace > 0 ==> r.grace == p.grace)
    ensures (p.threshold > 0.0 ==> r.threshold == p.threshold)
    ensures p.maxMisbehavior > 0 ==> r.maxMisbehavior == p.maxMisbehavior
    ensures p.minCells <= 0 && p.grace <= 0 && p.threshold <= 0.0 && p.maxMisbehavior <= 0 ==>
      r == Params(7, 5, 0.6666667, 3)
  {
    Params(if p.minCells <= 0 then 7 else p.minCells, if p.grace <= 0 then 5 else p.grace,
           if p.threshold <= 0.0 then DEFAULT_THRESHOLD else p.threshold,
           if p.maxMisbehavior <= 0 then 3 else p.maxMisbehavior)
  }

  // ---------- readiness ----------

  /** The least number of votes that is two thirds of the devices. */
  function RequiredDevices(total: int): (r: int)
    ensures total <= 0 ==> r == 0
    ensures total > 0 ==> 3 * r >= 2 * total > 3 * (r - 1)
  {
    if total <= 0 then 0 else (2 * total + 2) / 3
  }

  function RequiredCells(minCells: int, active: nat): (r: nat)
    ensures minCells >= 0 ==> r <= active && r <= minCells && (r == active || r == minCells)
    ensures minCells < 0 ==> r == 0
  {
    if minCells > active then active else if minCells < 0 then 0 else minCells
  }

  /** Enough cells attested; after the grace period a majority, or none at all, will do. */
  predicate CellsSuffice(cells: nat, required: nat, waited: bool) {
    cells >= required || (waited && (cells == 0 || 2 * cells >= required))
  }

  /** What the readiness of a block is judged by: active cells, known devices, total stake and time. */
  datatype Conditions = Conditions(p: Params, active: nat, total: nat, stake: real, now: int)

  /** The block may be finalised. */
  ghost predicate Ready(blk: Counters, k: Conditions) {
    && blk.l2Committed
    && CellsSuffice(|blk.cells|, RequiredCells(k.p.minCells, k.active), k.now - blk.firstSeen >= Grace(k.p))
    && |blk.deviceVotes| >= RequiredDevices(k.total)
    && k.stake > 0.0 && blk.qcWeight as real >= k.p.threshold * k.stake
  }

  function Grace(p: Params): (r: int)
    ensures r > 0 && (p.grace > 0 ==> r == p.grace) && (p.grace <= 0 ==> r == 5)
  {
    if p.grace <= 0 then 5 else p.grace
  }

  /** The cells asked for while a block may still wait for them: as many as the parameter says, or all that
      are active. */
  ghost predicate FullyAttested(cells: nat, p: Params, active: nat) {
    cells >= p.minCells || cells >= active
  }

  /** And afterwards: none at all, or half of those. */
  ghost predicate HalfAttested(cells: nat, p: Params, active: nat) {
    cells == 0 || 2 * cells >= p.minCells || 2 * cells >= active
  }

  /** A committed block with two thirds of the devices and the required share of the stake is ready exactly when
      all cells asked for have attested or, once the grace period has passed, half of them or none. */
  lemma ReadyExactly(blk: Counters, k: Conditions)
    ensures Ready(blk, k) <==>
      (blk.l2Committed && 3 * |blk.deviceVotes| >= 2 * k.total
      && k.stake > 0.0 && blk.qcWeight as real >= k.p.threshold * k.stake
      && if k.now - blk.firstSeen < Grace(k.p) then FullyAttested(|blk.cells|, k.p, k.active)
         else HalfAttested(|blk.cells|, k.p, k.active))
  {
    assert |blk.deviceVotes| >= RequiredDevices(k.total) <==> 3 * |blk.deviceVotes| >= 2 * k.total;
  }

  /** After the grace period the first attestation takes a ready block back out of readiness
      exactly when three or more cells are required. */
  lemma FirstAttestationStalls(blk: Counters, k: Conditions, cell: CellId)
    requires blk.cells == {} && k.now - blk.firstSeen >= Grace(k.p) && Ready(blk, k)
    ensures Ready(blk.(cells := blk.cells + {cell}), k) <==> RequiredCells(k.p.minCells, k.active) <= 2
  {
    assert |{cell}| == 1 && blk.cells + {cell} == {cell};
  }

  // ---------- what L2 has told ----------

  function Weigh(qcs: seq<QCRef>): nat {
    if qcs == [] then 0 else Weigh(qcs[..|qcs| - 1]) + qcs[|qcs| - 1].weight
  }

  lemma WeighSnoc(qcs: seq<QCRef>, q: QCRef)
    ensures Weigh(qcs + [q]) == Weigh(qcs) + q.weight
  {
    assert (qcs + [q])[..|qcs|] == qcs;
  }

  /** The weight of the certificates of b's children that L2 has told of. */
  function WeightOf(heard: seq<Note>, b: BlockId): nat {
    if heard == [] then 0
    else
      var n := heard[|heard| - 1];
      WeightOf(heard[..|heard| - 1], b) + if n.QCNote? && n.parent == b then n.weight else 0
  }

  ghost predicate CommitHeard(heard: seq<Note>, b: BlockId) {
    exists n :: n in heard && n.CommitNote? && n.block == b
  }

  lemma HearQC(heard: seq<Note>, parent: BlockId, child: BlockId, weight: nat)
    ensures var heard' := heard + [L2.QCNote(parent, child, weight)];
      (forall b :: WeightOf(heard', b) == WeightOf(heard, b) + (if b == parent then weight else 0))
      && forall b :: CommitHeard(heard', b) <==> CommitHeard(heard, b)
  {
    var n := L2.QCNote(parent, child, weight);
    assert (heard + [n])[..|heard|] == heard;
    forall b ensures CommitHeard(heard + [n], b) <==> CommitHeard(heard, b) {
      if CommitHeard(heard, b) {
        var m :| m in heard && m.CommitNote? && m.block == b;
        assert m in heard + [n];
      }
    }
  }

  lemma HearCommit(heard: seq<Note>, block: BlockId, parent: BlockId, height: int)
    ensures var heard' := heard + [L2.CommitNote(block, parent, height)];
      (forall b :: WeightOf(heard', b) == WeightOf(heard, b))
      && forall b :: CommitHeard(heard', b) <==> CommitHeard(heard, b) || b == block
  {
    var n := L2.CommitNote(block, parent, height);
    assert (heard + [n])[..|heard|] == heard;
    assert n in heard + [n];
    forall b ensures CommitHeard(heard + [n], b) <==> CommitHeard(heard, b) || b == block {
      if CommitHeard(heard, b) {
        var m :| m in heard && m.CommitNote? && m.block == b;
        assert m in heard + [n];
      }
    }
  }

  // ---------- invariants ----------

  /** What a local finalisation rested on. */
  datatype Evidence = Evidence(total: int, stake: real, active: nat, now: int, envelope: Envelope)

  /** Every call from L2, every local finalisation, and the blocks a foreign envelope was seen for. */
  datatype History = History(heard: seq<Note>, finals: map<BlockId, Evidence>, observed: set<BlockId>)

  function WeightIn(t: Table, b: BlockId): nat {
    if b in t then t[b].qcWeight else 0
  }

  predicate CommittedIn(t: Table, b: BlockId) {
    b in t && t[b].l2Committed
  }

  /** The table says what L2 told, no more and no less. */
  ghost predicate Agrees(t: Table, heard: seq<Note>) {
    forall b :: WeightIn(t, b) == WeightOf(heard, b) && (CommittedIn(t, b) <==> CommitHeard(heard, b))
  }

  /** The evidence still stands: the votes and cells counted then are those on file. */
  ghost predicate Stands(b: BlockId, blk: Counters, ev: Evidence, p: Params) {
    && blk.l2Committed && 3 * |blk.deviceVotes| >= 2 * ev.total
    && ev.stake > 0.0 && Weigh(ev.envelope.qcs) as real >= p.threshold * ev.stake
    && ev.envelope.block == b && ev.envelope.qcs <= blk.qcs && ev.envelope.cells == blk.cells
    && if ev.now - blk.firstSeen < Grace(p) then FullyAttested(|ev.envelope.cells|, p, ev.active)
       else HalfAttested(|ev.envelope.cells|, p, ev.active)
  }

  ghost predicate Finals(t: Table, finals: map<BlockId, Evidence>, observed: set<BlockId>, p: Params) {
    && finals.Keys + observed <= t.Keys
    && (forall b :: b in t ==> (t[b].status == Final <==> b in finals || b in observed))
    && (forall b :: b in finals ==> Stands(b, t[b], finals[b], p))
    && forall b :: b in finals && b !in observed ==> t[b].envelope == Some(finals[b].envelope)
  }

  ghost predicate Weighed(t: Table) {
    forall b :: b in t ==> t[b].qcWeight == Weigh(t[b].qcs)
  }

  ghost predicate Kept(t: Table, h: History, p: Params) {
    Weighed(t) && Agrees(t, h.heard) && Finals(t, h.finals, h.observed, p)
  }

  ghost predicate FrozenAt(blk: Counters, blk': Counters) {
    && (blk.l2Committed ==> blk'.l2Committed) && blk'.firstSeen == blk.firstSeen
    && (blk.status == Final ==> blk'.status == Final && blk'.cells == blk.cells && blk'.deviceVotes == blk.deviceVotes)
  }

  /** Final is absorbing and freezes cells and device votes; a commit is never taken back, and the time a block
      was first seen stays. */
  ghost predicate Frozen(t: Table, t': Table) {
    forall b :: b in t ==> b in t' && FrozenAt(t[b], t'[b])
  }

  lemma FrozenSelf(t: Table)
    ensures Frozen(t, t)
  {
  }

  lemma FrozenTrans(t: Table, t': Table, t'': Table)
    requires Frozen(t, t') && Frozen(t', t'')
    ensures Frozen(t, t'')
  {
  }

  function NewBlock(now: int): Counters {
    Counters({}, {}, 0, [], false, NONE, 0, now, Option.None, Pending)
  }

  /** Nothing is known of the block but when it was first seen. */
  ghost predicate Blank(blk: Counters, now: int) {
    && blk.firstSeen == now && blk.status == Pending && blk.envelope.None? && !blk.l2Committed
    && blk.cells == {} && blk.deviceVotes == {} && blk.qcs == [] && blk.qcWeight == 0
  }

  function CellsOf(t: Table, b: BlockId): set<CellId> {
    if b in t then t[b].cells else {}
  }

  function VotersOf(t: Table, b: BlockId): set<DeviceId> {
    if b in t then t[b].deviceVotes else {}
  }

  /** The cells and the voters of b are joined by the given ones, and those of other blocks stay. */
  ghost predicate Joined(t: Table, t': Table, b: BlockId, cells: set<CellId>, voters: set<DeviceId>) {
    forall c :: CellsOf(t', c) == CellsOf(t, c) + (if c == b then cells else {})
      && VotersOf(t', c) == VotersOf(t, c) + if c == b then voters else {}
  }

  function Ensured(t: Table, b: BlockId, now: int): Table {
    if b in t then t else t[b := NewBlock(now)]
  }

  lemma EnsureKeeps(t: Table, h: History, p: Params, b: BlockId, now: int)
    requires Kept(t, h, p)
    ensures Kept(Ensured(t, b, now), h, p) && Frozen(t, Ensured(t, b, now))
  {
    var t' := Ensured(t, b, now);
    assert forall c :: WeightIn(t', c) == WeightIn(t, c) && (CommittedIn(t', c) <==> CommittedIn(t, c));
    assert t.Keys <= t'.Keys;
    hide Stands, CommitHeard, WeightOf;
  }

  /** An update of one block that does not decide finality. */
  ghost predicate Touch(blk: Counters, blk': Counters) {
    && blk'.status == blk.status && blk'.envelope == blk.envelope && blk'.firstSeen == blk.firstSeen
    && blk.qcs <= blk'.qcs
    && (blk.l2Committed ==> blk'.l2Committed) && blk'.qcWeight == Weigh(blk'.qcs)
    && (blk.status == Final ==> blk'.cells == blk.cells && blk'.deviceVotes == blk.deviceVotes)
  }

  lemma TouchFinals(t: Table, h: History, p: Params, b: BlockId, blk: Counters)
    requires Finals(t, h.finals, h.observed, p) && b in t && Touch(t[b], blk)
    ensures Finals(t[b := blk], h.finals, h.observed, p) && Frozen(t, t[b := blk])
  {
    var t' := t[b := blk];
    assert t'.Keys == t.Keys;
    if b in h.finals { StandsOn(b, t[b], blk, h.finals[b], p); }
    hide Weigh, Stands;
  }

  lemma StandsOn(b: BlockId, blk: Counters, blk': Counters, ev: Evidence, p: Params)
    requires Stands(b, blk, ev, p) && Touch(blk, blk') && blk.status == Final
    ensures Stands(b, blk', ev, p)
  {
    hide Weigh;
  }

  lemma TouchKeeps(t: Table, h: History, p: Params, b: BlockId, blk: Counters, heard: seq<Note>)
    requires Kept(t, h, p) && b in t && Touch(t[b], blk) && Agrees(t[b := blk], heard)
    ensures Kept(t[b := blk], h.(heard := heard), p) && Frozen(t, t[b := blk])
  {
    TouchFinals(t, h, p, b, blk);
    hide Agrees, Weigh, Finals, Frozen;
  }

  /** The block with one more certificate of a child. */
  function Heavier(blk: Counters, ref: QCRef): Counters {
    blk.(qcs := blk.qcs + [ref], qcWeight := blk.qcWeight + ref.weight)
  }

  function Attested(blk: Counters, cell: CellId): Counters {
    blk.(cells := blk.cells + {cell})
  }

  function Voted(blk: Counters, device: DeviceId): Counters {
    blk.(deviceVotes := blk.deviceVotes + {device})
  }

  /** The block with the envelope that is built for it. */
  function Finalized(blk: Counters, b: BlockId): Counters {
    blk.(envelope := Some(Envelope(b, blk.height, blk.qcs, blk.cells)), status := Final)
  }

  /** What a finalisation under the given conditions rests on. */
  function EvidenceOf(k: Conditions, blk: Counters): Evidence
    requires blk.envelope.Some?
  {
    Evidence(k.total, k.stake, k.active, k.now, blk.envelope.value)
  }

  lemma ReadyStands(blk: Counters, b: BlockId, k: Conditions)
    requires Ready(blk, k) && blk.qcWeight == Weigh(blk.qcs)
    ensures Stands(b, Finalized(blk, b), EvidenceOf(k, Finalized(blk, b)), k.p)
  {
    ReadyExactly(blk, k);
    hide Ready, Weigh;
  }

  lemma FinalizeKeeps(t: Table, h: History, b: BlockId, k: Conditions)
    requires Kept(t, h, k.p) && b in t && t[b].status != Final && Ready(t[b], k)
    ensures var blk := Finalized(t[b], b);
      Kept(t[b := blk], h.(finals := h.finals[b := EvidenceOf(k, blk)]), k.p) && Frozen(t, t[b := blk])
  {
    var blk := Finalized(t[b], b);
    var t' := t[b := blk];
    var finals' := h.finals[b := EvidenceOf(k, blk)];
    assert t'.Keys == t.Keys;
    ReadyStands(t[b], b, k);
    hide Ready, Stands, Weigh, WeightOf, CommitHeard;
    assert Agrees(t', h.heard) by {
      assert forall c :: WeightIn(t', c) == WeightIn(t, c) && (CommittedIn(t', c) <==> CommittedIn(t, c));
    }
  }

  lemma ObserveKeeps(t: Table, h: History, p: Params, b: BlockId, env: Envelope)
    requires Kept(t, h, p) && b in t
    ensures var t' := t[b := t[b].(envelope := Some(env), status := Final)];
      Kept(t', h.(observed := h.observed + {b}), p) && Frozen(t, t')
  {
    var t' := t[b := t[b].(envelope := Some(env), status := Final)];
    assert t'.Keys == t.Keys;
    assert Agrees(t', h.heard) by {
      assert forall c :: WeightIn(t', c) == WeightIn(t, c) && (CommittedIn(t', c) <==> CommittedIn(t, c));
      hide WeightOf, CommitHeard;
    }
    forall c | c in h.finals ensures Stands(c, t'[c], h.finals[c], p) {
      assert Stands(c, t[c], h.finals[c], p);
    }
    hide Stands, Agrees, Weigh;
  }

  /** What maybeFinalizeLocked makes of the table. */
  ghost function Decide(t: Table, b: BlockId, k: Conditions): Table
    requires b in t
  {
    if t[b].status != Final && Ready(t[b], k) then t[b := Finalized(t[b], b)] else t
  }

  /** And of the history. */
  ghost function Attest(h: History, t: Table, b: BlockId, k: Conditions): History
    requires b in t
  {
    if t[b].status != Final && Ready(t[b], k)
    then h.(finals := h.finals[b := EvidenceOf(k, Finalized(t[b], b))]) else h
  }

  lemma DecideKeeps(t: Table, h: History, lower: DeviceId -> DeviceId, attesters: set<DeviceId>, b: BlockId,
      k: Conditions)
    requires Kept(t, h, k.p) && VotersKnown(t, lower, attesters) && b in t
    ensures var t', h' := Decide(t, b, k), Attest(h, t, b, k);
      Kept(t', h', k.p) && Frozen(t, t') && VotersKnown(t', lower, attesters)
  {
    hide Kept, Ready;
    if t[b].status != Final && Ready(t[b], k) {
      FinalizeKeeps(t, h, b, k);
    }
  }

  lemma NoneJoined(t: Table, b: BlockId, now: int)
    ensures Joined(t, t, b, {}, {}) && Joined(t, Ensured(t, b, now), b, {}, {})
  {
  }

  /** A new cell or voter joins, or one that is there already. */
  lemma Joins(t: Table, b: BlockId, now: int, k: Conditions, cell: CellId, device: DeviceId)
    ensures var t' := Ensured(t, b, now);
      (b in t' && cell in t'[b].cells ==> Joined(t, t', b, {cell}, {}))
      && Joined(t, Decide(t'[b := Attested(t'[b], cell)], b, k), b, {cell}, {})
      && Joined(t, Decide(t'[b := Voted(t'[b], device)], b, k), b, {}, {device})
  {
    hide Ready;
  }

  lemma ReadyIsCommitted(blk: Counters, k: Conditions)
    ensures Ready(blk, k) ==> blk.l2Committed
  {
  }

  /** The decision finalises a ready block with its envelope, and leaves the table of any other. */
  lemma Decided(t: Table, h: History, b: BlockId, k: Conditions)
    requires b in t
    ensures Attest(h, t, b, k).heard == h.heard && Attest(h, t, b, k).observed == h.observed
    ensures var blk := t[b];
      Decide(t, b, k) == (if blk.status == Final || !Ready(blk, k) then t else t[b := Finalized(blk, b)])
      && Finalized(blk, b) == blk.(status := Final, envelope := Some(Envelope(b, blk.height, blk.qcs, blk.cells)))
  {
    hide Ready;
  }

  function ActiveCells(cells: map<CellId, CellStatus>): set<CellId> {
    set c | c in cells && cells[c] == Active
  }

  /** Every voter is among the known attesters. */
  ghost predicate VotersKnown(t: Table, lower: DeviceId -> DeviceId, attesters: set<DeviceId>) {
    forall b, d :: b in t && d in t[b].deviceVotes ==> lower(d) in attesters
  }

  /** One more failure of the cell. */
  function Failed(misbehave: map<CellId, int>, cell: CellId): map<CellId, int> {
    misbehave[cell := (if cell in misbehave then misbehave[cell] else 0) + 1]
  }

  /** A cell with as many failures as the limit is quarantined. */
  function Judged(cells: map<CellId, CellStatus>, misbehave: map<CellId, int>, cell: CellId, limit: int)
      : map<CellId, CellStatus>
    requires cell in misbehave
  {
    if misbehave[cell] >= limit && cell in cells then cells[cell := Quarantined] else cells
  }

  class L3Service {
    const p: Params
    const lower: DeviceId -> DeviceId        // the lower-case form of a device id
    const isAttester: DeviceId -> bool
    var totalStake: real
    var devicesTotal: int
    var attesters: set<DeviceId>
    var cells: map<CellId, CellStatus>
    var misbehave: map<CellId, int>
    var blocks: Table
    ghost var h: History

    ghost predicate Valid()
      reads this
    {
      && Kept(blocks, h, p) && VotersKnown(blocks, lower, attesters)
      && |attesters| <= devicesTotal && totalStake > 0.0
    }

    constructor (p: Params, totalStake: real, lower: DeviceId -> DeviceId, isAttester: DeviceId -> bool)
      ensures Valid() && blocks == map[] && h == History([], map[], {}) && this.p == WithDefaults(p)
      ensures this.lower == lower && this.isAttester == isAttester
      ensures (totalStake > 0.0 ==> this.totalStake == totalStake)
    {
      this.p, this.lower, this.isAttester := WithDefaults(p), lower, isAttester;
      this.totalStake := if totalStake <= 0.0 then 1.0 else totalStake;
      devicesTotal, attesters, cells, misbehave, blocks, h := 0, {}, map[], map[], map[], History([], map[], {});
    }

    function AttesterTotal(): (total: int)
      reads this`attesters, this`devicesTotal
      ensures total >= devicesTotal && total >= |attesters| && (total == devicesTotal || total == |attesters|)
    {
      if |attesters| > devicesTotal then |attesters| else devicesTotal
    }

    ghost function Now(now: int): (k: Conditions)
      reads this`cells, this`attesters, this`devicesTotal, this`totalStake
      ensures k.p == p && k.stake == totalStake && k.now == now
      ensures k.active == |set c | c in cells && cells[c] == Active|
      ensures k.total >= devicesTotal && k.total >= |attesters| && (k.total == devicesTotal || k.total == |attesters|)
    {
      Conditions(p, |ActiveCells(cells)|, AttesterTotal(), totalStake, now)
    }

    method ActiveCount() returns (count: nat)
      ensures count == |ActiveCells(cells)| == |set c | c in cells && cells[c] == Active|
    {
      count := 0;
      var rest := cells.Keys;
      ghost var active: set<CellId> := {};
      while rest != {}
        invariant rest <= cells.Keys && active == ActiveCells(cells) - rest && count == |active|
        decreases |rest|
      {
        var c :| c in rest;
        if cells[c] == Active {
          active := active + {c};
          count := count + 1;
        }
        rest := rest - {c};
      }
      assert ActiveCells(cells) - rest == ActiveCells(cells) == set c | c in cells && cells[c] == Active;
    }

    method IsReady(blk: Counters, now: int) returns (r: bool)
      ensures r <==> Ready(blk, Now(now))
    {
      if !blk.l2Committed { return false; }
      var activeCells := ActiveCount();
      var requiredCells := p.minCells;
      if requiredCells > activeCells { requiredCells := activeCells; }
      if requiredCells < 0 { requiredCells := 0; }
      var grace := if p.grace <= 0 then 5 else p.grace;
      var waited := now - blk.firstSeen;
      var effectiveCells := requiredCells;
      if effectiveCells > 0 && |blk.cells| < effectiveCells {
        if waited >= grace {
          var majority := (effectiveCells + 1) / 2;
          if majority < 1 { majority := 1; }
          if |blk.cells| == 0 {
            effectiveCells := 0;
          } else if |blk.cells| >= majority {
            effectiveCells := majority;
          }
        }
        if |blk.cells| < effectiveCells { return false; }
      }
      var deviceRequired := RequiredDevices(AttesterTotal());
      if deviceRequired > 0 && |blk.deviceVotes| < deviceRequired { return false; }
      if totalStake <= 0.0 { return false; }
      RatioMeets(blk.qcWeight as real, totalStake, p.threshold);
      if blk.qcWeight as real / totalStake < p.threshold { return false; }
      return true;
    }

    /** Finalise the block if it is ready. */
    method MaybeFinalize(b: BlockId, now: int)
      requires Valid() && b in blocks
      modifies this`blocks, this`h
      ensures Valid() && Frozen(old(blocks), blocks)
      ensures blocks == Decide(old(blocks), b, Now(now))
      ensures h == Attest(old(h), old(blocks), b, Now(now)) && h.heard == old(h).heard && h.observed == old(h).observed
      ensures var blk := old(blocks)[b];
        if blk.status == Final || !Ready(blk, Now(now)) then blocks == old(blocks)
        else blocks == old(blocks)[b := blk.(status := Final,
          envelope := Some(Envelope(b, blk.height, blk.qcs, blk.cells)))]
    {
      DecideKeeps(blocks, h, lower, attesters, b, Now(now));
      Decided(blocks, h, b, Now(now));
      ReadyIsCommitted(blocks[b], Now(now));
      hide Kept, Ready, Frozen, VotersKnown, Now, Decide, Attest, Finalized;
      var ready := false;
      if blocks[b].l2Committed && blocks[b].status != Final { ready := IsReady(blocks[b], now); }
      h := Attest(h, blocks, b, Now(now));
      if ready { blocks := blocks[b := Finalized(blocks[b], b)]; }
    }

    /** Make sure the block has an entry. */
    method EnsureBlock(b: BlockId, now: int)
      requires Valid()
      modifies this`blocks
      ensures Valid() && Frozen(old(blocks), blocks) && blocks == Ensured(old(blocks), b, now) && b in blocks
      ensures b in old(blocks) ==> blocks == old(blocks)
      ensures b !in old(blocks) ==> blocks == old(blocks)[b := blocks[b]] && Blank(blocks[b], now)
    {
      EnsureKeeps(blocks, h, p, b, now);
      hide Kept, Frozen;
      if b !in blocks { blocks := blocks[b := NewBlock(now)]; }
    }

    /** L2 tells that it committed a block; other callers only seed its place in the chain. */
    method RecordBlockMeta(b: BlockId, parent: BlockId, height: int, l2Committed: bool, now: int)
      requires Valid()
      modifies this`blocks, this`h
      ensures Valid() && Frozen(old(blocks), blocks)
      ensures b == NONE ==> blocks == old(blocks) && h == old(h)
      ensures b != NONE ==>
        var t := Ensured(old(blocks), b, now);
        blocks == t[b := t[b].(parent := parent, height := height, l2Committed := t[b].l2Committed || l2Committed)]
        && h == if l2Committed then old(h).(heard := old(h).heard + [L2.CommitNote(b, parent, height)]) else old(h)
    {
      if b == NONE { return; }
      EnsureBlock(b, now);
      ghost var t := blocks;
      var blk := blocks[b].(parent := parent, height := height);
      if l2Committed && !blk.l2Committed { blk := blk.(l2Committed := true); }
      ghost var heard := if l2Committed then h.heard + [L2.CommitNote(b, parent, height)] else h.heard;
      CommitAgrees(blocks, h.heard, b, blk, parent, height, l2Committed);
      TouchKeeps(blocks, h, p, b, blk, heard);
      FrozenTrans(old(blocks), t, t[b := blk]);
      hide Kept, Frozen;
      h := h.(heard := heard);
      blocks := blocks[b := blk];
    }

    /** L2 tells of the certificate of a child of b. */
    method RecordDescendantQC(b: BlockId, ref: QCRef, now: int)
      requires Valid()
      modifies this`blocks, this`h
      ensures Valid() && Frozen(old(blocks), blocks)
      ensures b == NONE ==> blocks == old(blocks) && h == old(h)
      ensures b != NONE ==>
        var t := Ensured(old(blocks), b, now);
        var t' := t[b := Heavier(t[b], ref)];
        blocks == Decide(t', b, Now(now))
        && h.heard == old(h).heard + [L2.QCNote(b, ref.block, ref.weight)] && h.observed == old(h).observed
    {
      if b == NONE { return; }
      AddQC(b, ref, now);
      ghost var t := blocks;
      hide Kept, Frozen, Decide;
      MaybeFinalize(b, now);
      FrozenTrans(old(blocks), t, blocks);
    }

    method AddQC(b: BlockId, ref: QCRef, now: int)
      requires Valid() && b != NONE
      modifies this`blocks, this`h
      ensures Valid() && Frozen(old(blocks), blocks)
      ensures var t := Ensured(old(blocks), b, now);
        blocks == t[b := Heavier(t[b], ref)]
      ensures h == old(h).(heard := old(h).heard + [L2.QCNote(b, ref.block, ref.weight)])
    {
      EnsureBlock(b, now);
      HeavierKeeps(blocks, h, p, lower, attesters, b, ref);
      hide Kept, Frozen, Heavier, VotersKnown;
      Put(b, Heavier(blocks[b], ref), h.heard + [L2.QCNote(b, ref.block, ref.weight)], old(blocks));
    }

    /** Replace the entry of a block. */
    method Put(b: BlockId, blk: Counters, ghost heard: seq<Note>, ghost before: Table)
      requires Valid() && Kept(blocks[b := blk], h.(heard := heard), p)
      requires VotersKnown(blocks[b := blk], lower, attesters)
      requires Frozen(before, blocks) && Frozen(blocks, blocks[b := blk])
      modifies this`blocks, this`h
      ensures Valid() && blocks == old(blocks)[b := blk] && h == old(h).(heard := heard) && Frozen(before, blocks)
    {
      FrozenTrans(before, blocks, blocks[b := blk]);
      hide Kept, Frozen, VotersKnown;
      h := h.(heard := heard);
      blocks := blocks[b := blk];
    }

    /** An envelope from the network settles the block. */
    method OnEnvelope(b: BlockId, env: Envelope, now: int)
      requires Valid()
      modifies this`blocks, this`h
      ensures Valid() && Frozen(old(blocks), blocks)
      ensures var t := Ensured(old(blocks), b, now);
        blocks == t[b := t[b].(envelope := Some(env), status := Final)]
      ensures h == old(h).(observed := old(h).observed + {b})
    {
      EnsureBlock(b, now);
      ghost var t := blocks;
      var blk := blocks[b].(envelope := Some(env), status := Final);
      ObserveKeeps(blocks, h, p, b, env);
      FrozenTrans(old(blocks), t, t[b := blk]);
      hide Kept, Frozen;
      h := h.(observed := h.observed + {b});
      blocks := blocks[b := blk];
    }

    method UpdateStatus(cell: CellId, status: CellStatus)
      modifies this`cells
      ensures cells == if cell in old(cells) then old(cells)[cell := status] else old(cells)
    {
      if cell in cells { cells := cells[cell := status]; }
    }

    method RegisterCell(cell: CellId)
      modifies this`cells
      ensures cells == if cell == "" then old(cells) else old(cells)[cell := Active]
    {
      if cell == "" { return; }
      cells := cells[cell := Active];
    }

    /** A cell that fails too often is quarantined. */
    method RecordFailure(cell: CellId)
      modifies this`misbehave, this`cells
      ensures misbehave == Failed(old(misbehave), cell)
      ensures cells == Judged(old(cells), misbehave, cell, p.maxMisbehavior)
      ensures misbehave == old(misbehave)[cell := misbehave[cell]]
      ensures misbehave[cell] == 1 + if cell in old(misbehave) then old(misbehave)[cell] else 0
      ensures cells == if misbehave[cell] < p.maxMisbehavior || cell !in old(cells) then old(cells)
        else old(cells)[cell := Quarantined]
    {
      misbehave := misbehave[cell := (if cell in misbehave then misbehave[cell] else 0) + 1];
      if misbehave[cell] >= p.maxMisbehavior { UpdateStatus(cell, Quarantined); }
    }

    /** A cell attests to a block; the outcomes of the signature and data checks are given. */
    method OnAttestation(cell: CellId, b: BlockId, signed: bool, proved: bool, now: int)
      requires Valid()
      modifies this`cells, this`misbehave, this`blocks, this`h
      ensures Valid() && Frozen(old(blocks), blocks)
      ensures var t := Ensured(old(blocks), b, now);
        if cell !in old(cells) || old(cells)[cell] != Active || !signed then blocks == old(blocks)
        else if t[b].status == Final || cell in t[b].cells || !proved then blocks == t
        else blocks == Decide(t[b := Attested(t[b], cell)], b, Now(now))
      ensures var t := Ensured(old(blocks), b, now);
        if cell in old(cells) && old(cells)[cell] == Active
          && (!signed || (t[b].status != Final && cell !in t[b].cells && !proved))
        then misbehave == Failed(old(misbehave), cell) && cells == Judged(old(cells), misbehave, cell, p.maxMisbehavior)
        else misbehave == old(misbehave) && cells == old(cells)
      ensures h.heard == old(h).heard && h.observed == old(h).observed
      ensures var counts := cell in old(cells) && old(cells)[cell] == Active && signed && proved
          && (b in old(blocks) ==> old(blocks)[b].status != Final);
        Joined(old(blocks), blocks, b, if counts then {cell} else {}, {})
    {
      NoneJoined(blocks, b, now);
      Joins(blocks, b, now, Now(now), cell, "");
      FrozenSelf(blocks);
      hide Joined, Ensured, Kept, Frozen, VotersKnown, Attested, Decide, Failed, Judged;
      if cell !in cells || cells[cell] != Active { return; }
      if !signed {
        RecordFailure(cell);
        return;
      }
      EnsureBlock(b, now);
      if blocks[b].status == Final { return; }
      if cell in blocks[b].cells { return; }
      if !proved {
        RecordFailure(cell);
        return;
      }
      ghost var t := blocks;
      CountCell(b, cell, now);
      FrozenTrans(old(blocks), t, blocks);
    }

    /** Count the cell, and decide. */
    method CountCell(b: BlockId, cell: CellId, now: int)
      requires Valid() && b in blocks && blocks[b].status != Final
      modifies this`blocks, this`h
      ensures Valid() && Frozen(old(blocks), blocks)
      ensures blocks == Decide(old(blocks)[b := Attested(old(blocks)[b], cell)], b, Now(now))
      ensures h.heard == old(h).heard && h.observed == old(h).observed
    {
      AttestedKeeps(blocks, h, p, lower, attesters, b, cell);
      hide Kept, Frozen, VotersKnown, Attested, Decide;
      blocks := blocks[b := Attested(blocks[b], cell)];
      ghost var t := blocks;
      MaybeFinalize(b, now);
      FrozenTrans(old(blocks), t, blocks);
    }

    /** A device votes for a block.  A new voter counts among the devices from then on. */
    method RecordDeviceAttestation(b: BlockId, device: DeviceId, now: int) returns (votes: int, required: int,
        total: int, recorded: bool)
      requires Valid()
      modifies this`blocks, this`attesters, this`devicesTotal, this`h
      ensures Valid() && Frozen(old(blocks), blocks)
      ensures b == NONE || device == "" ==> !recorded && blocks == old(blocks)
      ensures b != NONE && device != "" ==>
        var t := Ensured(old(blocks), b, now);
        (recorded <==> isAttester(device) && t[b].status != Final && device !in t[b].deviceVotes)
        && total == AttesterTotal() && required == RequiredDevices(total)
        && votes == |t[b].deviceVotes| + (if recorded then 1 else 0)
        && (!recorded ==> blocks == t)
        && (recorded ==> blocks == Decide(t[b := Voted(t[b], device)], b, Now(now)))
      ensures attesters == if recorded then old(attesters) + {lower(device)} else old(attesters)
      ensures devicesTotal == if |attesters| > old(devicesTotal) then |attesters| else old(devicesTotal)
      ensures h.heard == old(h).heard && h.observed == old(h).observed
      ensures Joined(old(blocks), blocks, b, {}, if recorded then {device} else {})
    {
      NoneJoined(blocks, b, now);
      if b == NONE || device == "" { return 0, 0, 0, false; }
      hide Joined;
      EnsureBlock(b, now);
      total := AttesterTotal();
      votes, required, recorded := |blocks[b].deviceVotes|, RequiredDevices(total), false;
      if !isAttester(device) || blocks[b].status == Final || device in blocks[b].deviceVotes { return; }
      ghost var t := blocks;
      hide Kept, Frozen, VotersKnown, Voted, Decide, Now, Ensured, Blank;
      votes, total := CountVote(b, device, now);
      required, recorded := RequiredDevices(total), true;
      Joins(old(blocks), b, now, Now(now), "", device);
      FrozenTrans(old(blocks), t, blocks);
    }

    /** Count the vote and the voter, and decide. */
    method CountVote(b: BlockId, device: DeviceId, now: int) returns (votes: int, total: int)
      requires Valid() && b in blocks && blocks[b].status != Final && device !in blocks[b].deviceVotes
      modifies this`blocks, this`attesters, this`devicesTotal, this`h
      ensures Valid() && Frozen(old(blocks), blocks)
      ensures blocks == Decide(old(blocks)[b := Voted(old(blocks)[b], device)], b, Now(now))
      ensures votes == |old(blocks)[b].deviceVotes| + 1 && total == AttesterTotal()
      ensures attesters == old(attesters) + {lower(device)}
      ensures devicesTotal == if |attesters| > old(devicesTotal) then |attesters| else old(devicesTotal)
      ensures h.heard == old(h).heard && h.observed == old(h).observed
    {
      hide Kept, Frozen, VotersKnown, Voted, Decide, Now;
      AddVote(b, device);
      VotedSize(old(blocks)[b], device);
      votes, total := |blocks[b].deviceVotes|, AttesterTotal();
      ghost var t := blocks;
      MaybeFinalize(b, now);
      FrozenTrans(old(blocks), t, blocks);
    }

    /** File a vote, and count the voter among the devices. */
    method AddVote(b: BlockId, device: DeviceId)
      requires Valid() && b in blocks && blocks[b].status != Final
      modifies this`blocks, this`attesters, this`devicesTotal
      ensures Valid() && Frozen(old(blocks), blocks) && blocks == old(blocks)[b := Voted(old(blocks)[b], device)]
      ensures attesters == old(attesters) + {lower(device)}
      ensures devicesTotal == if |attesters| > old(devicesTotal) then |attesters| else old(devicesTotal)
    {
      VotedKeeps(blocks, h, p, lower, attesters, b, device);
      hide Kept, Frozen, VotersKnown, Voted;
      blocks := blocks[b := Voted(blocks[b], device)];
      attesters := attesters + {lower(device)};
      var updatedTotal := AttesterTotal();
      if updatedTotal > devicesTotal { devicesTotal := updatedTotal; }
    }

    /** The number of devices only grows. */
    method UpdateDeviceTotal(total: int)
      requires Valid()
      modifies this`devicesTotal
      ensures Valid() && devicesTotal == if total > old(devicesTotal) then total else old(devicesTotal)
    {
      var n := if total < 0 then 0 else total;
      if n > devicesTotal { devicesTotal := n; }
    }

    method UpdateTotalStake(stake: real)
      requires Valid()
      modifies this`totalStake
      ensures Valid() && totalStake == if stake > 0.0 then stake else old(totalStake)
    {
      if stake <= 0.0 { return; }
      totalStake := stake;
    }

    /** A block this node finalised while it could still wait has all the cells asked for in its envelope. */
    lemma FinalisedIsAttested(b: BlockId)
      requires Valid() && b in h.finals
      ensures b in blocks && var ev := h.finals[b];
        if ev.now - blocks[b].firstSeen < Grace(p) then FullyAttested(|ev.envelope.cells|, p, ev.active)
        else HalfAttested(|ev.envelope.cells|, p, ev.active)
    {
      assert Stands(b, blocks[b], h.finals[b], p);
      hide Agrees, Weighed;
    }

    /** Finalise every block that has become ready; afterwards none is left ready. */
    method RecheckPending(now: int)
      requires Valid()
      modifies this`blocks, this`h
      ensures Valid() && Rechecked(old(blocks), blocks, {}, Now(now))
      ensures h.heard == old(h).heard && h.observed == old(h).observed
    {
      var rest := blocks.Keys;
      ghost var t0, k := blocks, Now(now);
      hide Rechecked, Kept, VotersKnown, Ready, Finalized, Decide, Attest, Frozen, Now, ActiveCells;
      RecheckStart(blocks, k);
      while rest != {}
        invariant Valid() && k == Now(now) && Rechecked(t0, blocks, rest, k)
        invariant h.heard == old(h).heard && h.observed == old(h).observed
        decreases |rest|
      {
        var b :| b in rest;
        RecheckOne(t0, blocks, rest, b, k);
        rest := rest - {b};
        if blocks[b].status != Final { MaybeFinalize(b, now); }
      }
    }
  }

  /** The blocks outside rest are final or not ready, and what changed was ready and is finalised. */
  ghost predicate Rechecked(t0: Table, t: Table, rest: set<BlockId>, k: Conditions) {
    && rest <= t.Keys == t0.Keys && Frozen(t0, t)
    && (forall b :: b in t && b in rest ==> t[b] == t0[b])
    && (forall b :: b in t && b !in rest ==> t[b].status == Final || !Ready(t[b], k))
    && forall b :: b in t && t[b] != t0[b] ==> DulyFinal(t0[b], t[b], b, k)
  }

  ghost predicate DulyFinal(blk: Counters, blk': Counters, b: BlockId, k: Conditions) {
    blk.status != Final && Ready(blk, k) && blk' == Finalized(blk, b)
  }

  lemma RecheckStart(t: Table, k: Conditions)
    ensures Rechecked(t, t, t.Keys, k)
  {
  }

  lemma RecheckOne(t0: Table, t: Table, rest: set<BlockId>, b: BlockId, k: Conditions)
    requires Rechecked(t0, t, rest, k) && b in rest
    ensures b in t && Rechecked(t0, Decide(t, b, k), rest - {b}, k)
    ensures t[b].status == Final ==> Decide(t, b, k) == t
  {
    var t' := Decide(t, b, k);
    assert t'.Keys == t.Keys;
    assert t'[b].status == Final || !Ready(t'[b], k);
    hide Ready;
  }

  lemma VotedSize(blk: Counters, device: DeviceId)
    requires device !in blk.deviceVotes
    ensures |Voted(blk, device).deviceVotes| == |blk.deviceVotes| + 1
  {
  }

  lemma SideAgrees(t: Table, heard: seq<Note>, b: BlockId, blk: Counters)
    requires Agrees(t, heard) && b in t && blk.qcWeight == t[b].qcWeight && blk.l2Committed == t[b].l2Committed
    ensures Agrees(t[b := blk], heard)
  {
    hide CommitHeard, WeightOf;
    var t' := t[b := blk];
    assert forall c :: WeightIn(t', c) == WeightIn(t, c) && (CommittedIn(t', c) <==> CommittedIn(t, c));
  }

  lemma AttestedKeeps(t: Table, h: History, p: Params, lower: DeviceId -> DeviceId, attesters: set<DeviceId>,
      b: BlockId, cell: CellId)
    requires Kept(t, h, p) && VotersKnown(t, lower, attesters) && b in t && t[b].status != Final
    ensures var t' := t[b := Attested(t[b], cell)];
      Kept(t', h, p) && Frozen(t, t') && VotersKnown(t', lower, attesters)
  {
    assert Weighed(t) && Agrees(t, h.heard);
    SideAgrees(t, h.heard, b, Attested(t[b], cell));
    TouchKeeps(t, h, p, b, Attested(t[b], cell), h.heard);
    hide Kept, Agrees, Frozen, Touch;
  }

  lemma VotedKeeps(t: Table, h: History, p: Params, lower: DeviceId -> DeviceId, attesters: set<DeviceId>,
      b: BlockId, device: DeviceId)
    requires Kept(t, h, p) && VotersKnown(t, lower, attesters) && b in t && t[b].status != Final
    ensures var t' := t[b := Voted(t[b], device)];
      Kept(t', h, p) && Frozen(t, t') && VotersKnown(t', lower, attesters + {lower(device)})
  {
    assert Weighed(t) && Agrees(t, h.heard);
    SideAgrees(t, h.heard, b, Voted(t[b], device));
    TouchKeeps(t, h, p, b, Voted(t[b], device), h.heard);
    hide Kept, Agrees, Frozen, Touch;
  }

  lemma CommitAgrees(t: Table, heard: seq<Note>, b: BlockId, blk: Counters, parent: BlockId, height: int,
      l2Committed: bool)
    requires Agrees(t, heard) && b in t && blk.qcWeight == t[b].qcWeight
    requires blk.l2Committed == (t[b].l2Committed || l2Committed)
    ensures Agrees(t[b := blk], if l2Committed then heard + [L2.CommitNote(b, parent, height)] else heard)
  {
    HearCommit(heard, b, parent, height);
    hide CommitHeard, WeightOf;
    var t' := t[b := blk];
    assert forall c :: WeightIn(t', c) == WeightIn(t, c);
    assert forall c :: CommittedIn(t', c) <==> CommittedIn(t, c) || (c == b && l2Committed);
  }

  lemma HeavierKeeps(t: Table, h: History, p: Params, lower: DeviceId -> DeviceId, attesters: set<DeviceId>,
      b: BlockId, ref: QCRef)
    requires Kept(t, h, p) && VotersKnown(t, lower, attesters) && b in t
    ensures var t', heard := t[b := Heavier(t[b], ref)], h.heard + [L2.QCNote(b, ref.block, ref.weight)];
      Kept(t', h.(heard := heard), p) && Frozen(t, t') && VotersKnown(t', lower, attesters)
  {
    assert Weighed(t) && Agrees(t, h.heard);
    QCAgrees(t, h.heard, b, Heavier(t[b], ref), ref);
    TouchKeeps(t, h, p, b, Heavier(t[b], ref), h.heard + [L2.QCNote(b, ref.block, ref.weight)]);
    hide Kept, Agrees, Frozen, Touch;
  }

  lemma QCAgrees(t: Table, heard: seq<Note>, b: BlockId, blk: Counters, ref: QCRef)
    requires Agrees(t, heard) && Weighed(t) && b in t
    requires blk == Heavier(t[b], ref)
    ensures Agrees(t[b := blk], heard + [L2.QCNote(b, ref.block, ref.weight)]) && Touch(t[b], blk)
  {
    HearQC(heard, b, ref.block, ref.weight);
    WeighSnoc(t[b].qcs, ref);
    hide CommitHeard, WeightOf, Weigh;
    var t' := t[b := blk];
    assert forall c :: WeightIn(t', c) == WeightIn(t, c) + (if c == b then ref.weight else 0);
    assert forall c :: CommittedIn(t', c) <==> CommittedIn(t, c);
  }

  lemma RatioMeets(w: real, stake: real, threshold: real)
    requires stake > 0.0
    ensures w / stake >= threshold <==> w >= threshold * stake
  {
    assert (w / stake) * stake == w;
  }
}
