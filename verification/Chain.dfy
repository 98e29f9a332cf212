/** Out-of-order block acceptance: blocks arrive in any order, orphans wait under the hash of their
    parent, and accepting a block accepts its waiting descendants. */
module Chain {
  type HashId = string   // hex text of a block hash; "" is the parent hash of a genesis block
  type TxId = string
  type Waiting = map<HashId, seq<Block>>

  datatype Block = Block(hash: HashId, prev: HashId, height: int, txIDs: seq<TxId>)
  datatype TxRef = TxRef(blockHash: HashId, height: int)

  // ---------- reference definitions ----------

  /** b is the one block its hash names. */
  ghost predicate Genuine(body: HashId -> Block, b: Block) {
    b.hash != "" && body(b.hash) == b
  }

  predicate Genesis(b: Block) {
    b.height == 1 && b.prev == ""
  }

  /** b names p as its parent and is one higher. */
  predicate Extends(b: Block, p: Block) {
    b.prev == p.hash && b.height == p.height + 1
  }

  /** b is delivered, and linked through delivered blocks to a delivered genesis block. */
  ghost predicate Linked(body: HashId -> Block, d: multiset<Block>, b: Block)
    decreases b.height
  {
    var p := body(b.prev);
    b in d && (Genesis(b) || (b.height > 1 && Genuine(body, p) && Extends(b, p) && Linked(body, d, p)))
  }

  /** How many copies of b wait under its parent's hash. */
  function Count(waiting: Waiting, b: Block): nat {
    if b.prev in waiting then multiset(waiting[b.prev])[b] else 0
  }

  /** w is b, or it waits and its parent is under b. */
  ghost predicate Under(body: HashId -> Block, waiting: Waiting, b: Block, w: Block)
    decreases w.height - b.height
  {
    w == b || (w.height > b.height && Count(waiting, w) > 0 && Extends(w, body(w.prev))
               && Under(body, waiting, b, body(w.prev)))
  }

  /** w is under one of the first i children that extend b. */
  ghost predicate Taken(body: HashId -> Block, waiting: Waiting, b: Block, children: seq<Block>, i: nat, w: Block)
    requires i <= |children|
  {
    exists j :: 0 <= j < i && Extends(children[j], b) && Under(body, waiting, children[j], w)
  }

  ghost predicate Filed(body: HashId -> Block, waiting: Waiting, top: int) {
    forall k, b :: k in waiting && b in waiting[k] ==> b.prev == k && Genuine(body, b) && b.height <= top
  }

  // ---------- the cascade, on values ----------

  lemma {:induction false} UnderHigher(body: HashId -> Block, waiting: Waiting, b: Block, w: Block)
    requires Under(body, waiting, b, w)
    ensures w == b || (w.height > b.height && Count(waiting, w) > 0)
  {
  }

  lemma {:induction false} UnderTrans(body: HashId -> Block, waiting: Waiting, b: Block, c: Block, w: Block)
    requires Under(body, waiting, b, c) && Under(body, waiting, c, w)
    ensures Under(body, waiting, b, w)
    decreases w.height - c.height
  {
    UnderHigher(body, waiting, b, c);
    if w != c { UnderTrans(body, waiting, b, c, body(w.prev)); }
  }

  /** Everything under b is b itself or under a waiting child that extends b. */
  lemma {:induction false} UnderSplits(body: HashId -> Block, waiting: Waiting, top: int, b: Block, w: Block)
    requires Genuine(body, b) && Filed(body, waiting, top)
    ensures var children := if b.hash in waiting then waiting[b.hash] else [];
      Under(body, waiting, b, w) <==> w == b || Taken(body, waiting, b, children, |children|, w)
    decreases w.height - b.height
  {
    var children := if b.hash in waiting then waiting[b.hash] else [];
    if Under(body, waiting, b, w) && w != b {
      var p := body(w.prev);
      UnderSplits(body, waiting, top, b, p);
      if p == b {
        assert w in children;
        var j :| 0 <= j < |children| && children[j] == w;
        assert Under(body, waiting, children[j], w);
      } else {
        var j :| 0 <= j < |children| && Extends(children[j], b) && Under(body, waiting, children[j], p);
        UnderHigher(body, waiting, children[j], p);
        assert Under(body, waiting, children[j], w);
      }
    }
    if Taken(body, waiting, b, children, |children|, w) {
      var j :| 0 <= j < |children| && Extends(children[j], b) && Under(body, waiting, children[j], w);
      assert children[j] in children && children[j].prev == b.hash;
      assert multiset(children)[children[j]] > 0;
      assert Under(body, waiting, b, children[j]);
      UnderTrans(body, waiting, b, children[j], w);
    }
  }

  /** What waits while the children popped from w0 are being processed: the blocks under accepted
      children are gone, the popped children that do not extend b are queued again. */
  ghost predicate Midway(body: HashId -> Block, w0: Waiting, b: Block, children: seq<Block>, i: nat, waiting: Waiting)
    requires i <= |children|
  {
    forall w :: Count(waiting, w) ==
      if Taken(body, w0, b, children, i, w) then 0
      else if w.prev == b.hash then multiset(children[..i])[w]
      else Count(w0, w)
  }

  /** Midway, the blocks under the next child are those under it at the start that are not yet taken. */
  lemma {:induction false} MidwayUnder(body: HashId -> Block, w0: Waiting, b: Block, children: seq<Block>, i: nat,
      waiting: Waiting, c: Block, w: Block)
    requires i <= |children| && Midway(body, w0, b, children, i, waiting)
    requires Genuine(body, b) && Extends(c, b)
    ensures Under(body, waiting, c, w) ==> Under(body, w0, c, w)
    ensures Under(body, w0, c, w) ==> Under(body, waiting, c, w) || Taken(body, w0, b, children, i, w)
    decreases w.height - c.height
  {
    if w != c && w.height > c.height && Extends(w, body(w.prev)) {
      var p := body(w.prev);
      MidwayUnder(body, w0, b, children, i, waiting, c, p);
      assert w.prev != b.hash;
      if Taken(body, w0, b, children, i, p) && Count(w0, w) > 0 {
        var j :| 0 <= j < i && Extends(children[j], b) && Under(body, w0, children[j], p);
        UnderHigher(body, w0, children[j], p);
        assert Under(body, w0, children[j], w);
      }
    }
  }

  lemma TakenNext(body: HashId -> Block, w0: Waiting, b: Block, children: seq<Block>, i: nat, w: Block)
    requires i < |children|
    ensures Taken(body, w0, b, children, i + 1, w) <==>
      Taken(body, w0, b, children, i, w) || (Extends(children[i], b) && Under(body, w0, children[i], w))
  {
    if Taken(body, w0, b, children, i + 1, w) {
      var j :| 0 <= j < i + 1 && Extends(children[j], b) && Under(body, w0, children[j], w);
      if j == i {} else { assert Taken(body, w0, b, children, i, w); }
    }
    if Extends(children[i], b) && Under(body, w0, children[i], w) { assert 0 <= i < i + 1; }
    if Taken(body, w0, b, children, i, w) {
      var j :| 0 <= j < i && Extends(children[j], b) && Under(body, w0, children[j], w);
      assert 0 <= j < i + 1;
    }
  }

  /** The blocks under b no longer wait; nothing else changed. */
  ghost predicate CountsDrop(body: HashId -> Block, w0: Waiting, b: Block, waiting: Waiting) {
    forall w :: Count(waiting, w) == if Under(body, w0, b, w) then 0 else Count(w0, w)
  }

  lemma MidwayAccept(body: HashId -> Block, w0: Waiting, b: Block, children: seq<Block>, i: nat, before: Waiting,
      after: Waiting)
    requires i < |children| && Genuine(body, b) && Extends(children[i], b) && Midway(body, w0, b, children, i, before)
    requires CountsDrop(body, before, children[i], after)
    ensures Midway(body, w0, b, children, i + 1, after)
  {
    var c := children[i];
    assert children[..i + 1] == children[..i] + [c];
    forall w ensures Count(after, w) == if Taken(body, w0, b, children, i + 1, w) then 0
                                        else if w.prev == b.hash then multiset(children[..i + 1])[w] else Count(w0, w) {
      MidwayUnder(body, w0, b, children, i, before, c, w);
      TakenNext(body, w0, b, children, i, w);
    }
  }

  lemma MidwayQueue(body: HashId -> Block, w0: Waiting, b: Block, children: seq<Block>, i: nat, before: Waiting,
      after: Waiting)
    requires i < |children| && Genuine(body, b) && !Extends(children[i], b) && children[i].prev == b.hash
    requires Midway(body, w0, b, children, i, before)
    requires forall w :: Count(after, w) == Count(before, w) + if w == children[i] then 1 else 0
    ensures Midway(body, w0, b, children, i + 1, after)
  {
    var c := children[i];
    assert children[..i + 1] == children[..i] + [c];
    forall w ensures Count(after, w) == if Taken(body, w0, b, children, i + 1, w) then 0
                                        else if w.prev == b.hash then multiset(children[..i + 1])[w] else Count(w0, w) {
      TakenNext(body, w0, b, children, i, w);
      forall j | 0 <= j < i && Extends(children[j], b) ensures !Under(body, w0, children[j], c) {}
    }
  }

  /** h is the hash of a block. */
  ghost predicate Names(body: HashId -> Block, h: HashId) {
    Genuine(body, body(h)) && body(h).hash == h
  }

  ghost predicate KnownMidway(body: HashId -> Block, k0: set<HashId>, w0: Waiting, b: Block, children: seq<Block>,
      i: nat, known: set<HashId>)
    requires i <= |children|
  {
    forall h :: h in known <==> (h in k0 || h == b.hash || (Names(body, h) && Taken(body, w0, b, children, i, body(h))))
  }

  /** Known grows by exactly the blocks under b. */
  ghost predicate KnownAdds(body: HashId -> Block, k0: set<HashId>, w0: Waiting, b: Block, known: set<HashId>) {
    forall h :: h in known <==> (h in k0 || (Names(body, h) && Under(body, w0, b, body(h))))
  }

  lemma KnownMidwayAccept(body: HashId -> Block, k0: set<HashId>, w0: Waiting, b: Block, children: seq<Block>,
      i: nat, before: Waiting,
      known: set<HashId>, known': set<HashId>)
    requires i < |children| && Genuine(body, b) && Extends(children[i], b) && Midway(body, w0, b, children, i, before)
    requires KnownMidway(body, k0, w0, b, children, i, known) && KnownAdds(body, known, before, children[i], known')
    ensures KnownMidway(body, k0, w0, b, children, i + 1, known')
  {
    forall h ensures h in known' <==>
        (h in k0 || h == b.hash || (Names(body, h) && Taken(body, w0, b, children, i + 1, body(h)))) {
      MidwayUnder(body, w0, b, children, i, before, children[i], body(h));
      TakenNext(body, w0, b, children, i, body(h));
    }
  }

  lemma KnownMidwayQueue(body: HashId -> Block, k0: set<HashId>, w0: Waiting, b: Block, children: seq<Block>, i: nat,
      known: set<HashId>)
    requires i < |children| && !Extends(children[i], b) && KnownMidway(body, k0, w0, b, children, i, known)
    ensures KnownMidway(body, k0, w0, b, children, i + 1, known)
  {
    forall h ensures Taken(body, w0, b, children, i + 1, body(h)) <==> Taken(body, w0, b, children, i, body(h)) {
      TakenNext(body, w0, b, children, i, body(h));
    }
  }

  lemma MidwayStart(body: HashId -> Block, w0: Waiting, b: Block, children: seq<Block>, waiting: Waiting,
      k0: set<HashId>, known: set<HashId>)
    requires forall w :: Count(waiting, w) == if w.prev == b.hash then 0 else Count(w0, w)
    requires known == k0 + {b.hash}
    ensures Midway(body, w0, b, children, 0, waiting) && KnownMidway(body, k0, w0, b, children, 0, known)
  {
    assert children[..0] == [];
  }

  /** The next child that extends b does not wait: its copies so far were accepted. */
  lemma MidwayNotWaiting(body: HashId -> Block, w0: Waiting, b: Block, children: seq<Block>, i: nat, waiting: Waiting)
    requires i < |children| && Midway(body, w0, b, children, i, waiting) && Extends(children[i], b)
    ensures Count(waiting, children[i]) == 0
  {
    var c := children[i];
    if c in children[..i] {
      var j :| 0 <= j < i && children[j] == c;
      assert Under(body, w0, children[j], c);
    }
  }

  lemma KnownGrew(body: HashId -> Block, k0: set<HashId>, w0: Waiting, b: Block, known: set<HashId>)
    requires KnownAdds(body, k0, w0, b, known)
    ensures k0 <= known
  {
  }

  lemma CascadeDone(body: HashId -> Block, k0: set<HashId>, w0: Waiting, top: int, b: Block, children: seq<Block>,
      waiting: Waiting, known: set<HashId>)
    requires Genuine(body, b) && Filed(body, w0, top) && children == (if b.hash in w0 then w0[b.hash] else [])
    requires Midway(body, w0, b, children, |children|, waiting)
    requires KnownMidway(body, k0, w0, b, children, |children|, known)
    requires Count(w0, b) == 0
    ensures KnownAdds(body, k0, w0, b, known) && CountsDrop(body, w0, b, waiting)
  {
    assert children[..|children|] == children;
    forall w ensures Under(body, w0, b, w) <==> w == b || Taken(body, w0, b, children, |children|, w) {
      UnderSplits(body, w0, top, b, w);
    }
  }

  // ---------- delivering one block, on values ----------

  ghost predicate KnownLinked(body: HashId -> Block, d: multiset<Block>, known: set<HashId>) {
    forall h :: h in known <==> Names(body, h) && Linked(body, d, body(h))
  }

  ghost predicate RestWaits(body: HashId -> Block, d: multiset<Block>, waiting: Waiting) {
    forall b :: Count(waiting, b) == if Linked(body, d, b) then 0 else d[b]
  }

  /** The parent of b is linked and b extends it, or b is a genesis block. */
  ghost predicate Ready(body: HashId -> Block, d: multiset<Block>, b: Block) {
    var p := body(b.prev);
    Genesis(b) || (b.height > 1 && Genuine(body, p) && Extends(b, p) && Linked(body, d, p))
  }

  lemma {:induction false} LinkedGrows(body: HashId -> Block, d: multiset<Block>, b: Block, w: Block)
    ensures Linked(body, d, w) ==> Linked(body, d + multiset{b}, w)
    decreases w.height
  {
    if Linked(body, d, w) && !Genesis(w) { LinkedGrows(body, d, b, body(w.prev)); }
  }

  /** A block that is not ready links nothing. */
  lemma {:induction false} UnreadyLinksNothing(body: HashId -> Block, d: multiset<Block>, b: Block, w: Block)
    requires !Ready(body, d, b)
    ensures Linked(body, d + multiset{b}, w) <==> Linked(body, d, w)
    decreases w.height
  {
    LinkedGrows(body, d, b, w);
    if Linked(body, d + multiset{b}, w) && !Genesis(w) { UnreadyLinksNothing(body, d, b, body(w.prev)); }
  }

  /** A ready block links itself and what waits under it. */
  lemma {:induction false} ReadyLinksWaiting(body: HashId -> Block, d: multiset<Block>, waiting: Waiting, top: int,
      b: Block, w: Block)
    requires Ready(body, d, b) && Genuine(body, b) && b.height >= 1 && Filed(body, waiting, top)
    requires RestWaits(body, d, waiting)
    ensures Linked(body, d + multiset{b}, w) <==> Linked(body, d, w) || Under(body, waiting, b, w)
    decreases w.height
  {
    LinkedGrows(body, d, b, w);
    var p := body(w.prev);
    if w == b {
      LinkedGrows(body, d, b, body(b.prev));
    } else if Under(body, waiting, b, w) {
      UnderHigher(body, waiting, b, p);
      ReadyLinksWaiting(body, d, waiting, top, b, p);
      if p != b { assert p in waiting[p.prev]; }
    } else if Linked(body, d + multiset{b}, w) && !Genesis(w) {
      ReadyLinksWaiting(body, d, waiting, top, b, p);
      if !Linked(body, d, p) { UnderHigher(body, waiting, b, p); }
    }
  }

  lemma DeliverReady(body: HashId -> Block, d: multiset<Block>, w0: Waiting, top: int, b: Block, k0: set<HashId>,
      known: set<HashId>, waiting: Waiting)
    requires Ready(body, d, b) && Genuine(body, b) && b.height >= 1 && Filed(body, w0, top)
    requires RestWaits(body, d, w0) && KnownLinked(body, d, k0)
    requires KnownAdds(body, k0, w0, b, known) && CountsDrop(body, w0, b, waiting)
    ensures KnownLinked(body, d + multiset{b}, known) && RestWaits(body, d + multiset{b}, waiting)
  {
    forall w ensures Linked(body, d + multiset{b}, w) <==> Linked(body, d, w) || Under(body, w0, b, w) {
      ReadyLinksWaiting(body, d, w0, top, b, w);
    }
    hide Linked, Under, Ready, Filed, Count;
  }

  lemma RestCount(body: HashId -> Block, d: multiset<Block>, waiting: Waiting, b: Block)
    requires RestWaits(body, d, waiting)
    ensures Linked(body, d, b) || b !in d ==> Count(waiting, b) == 0
  {
  }

  lemma DeliverUnready(body: HashId -> Block, d: multiset<Block>, b: Block, known: set<HashId>, w0: Waiting,
      waiting: Waiting)
    requires !Ready(body, d, b) && RestWaits(body, d, w0) && KnownLinked(body, d, known)
    requires forall w :: Count(waiting, w) == Count(w0, w) + if w == b then 1 else 0
    ensures KnownLinked(body, d + multiset{b}, known) && RestWaits(body, d + multiset{b}, waiting)
  {
    forall w ensures Linked(body, d + multiset{b}, w) <==> Linked(body, d, w) { UnreadyLinksNothing(body, d, b, w); }
    assert !Linked(body, d, b);
    hide Linked, Ready, Count;
  }

  /** The block k parent hashes back from b. */
  ghost function Back(body: HashId -> Block, b: Block, k: nat): Block
    decreases k
  {
    if k == 0 then b else Back(body, body(b.prev), k - 1)
  }

  /** A linked block of height n is n-1 links from a genesis block, through linked blocks. */
  lemma {:induction false} LinkedPath(body: HashId -> Block, d: multiset<Block>, b: Block, k: nat)
    requires Linked(body, d, b) && Genuine(body, b) && k < b.height
    ensures var a := Back(body, b, k);
      Linked(body, d, a) && Genuine(body, a) && a.height == b.height - k && (k == b.height - 1 <==> Genesis(a))
    decreases k
  {
    if k > 0 { LinkedPath(body, d, body(b.prev), k - 1); }
  }

  // ---------- what the tables hold ----------

  /** Known entries name blocks at their heights. */
  ghost predicate KnownOk(body: HashId -> Block, known: map<HashId, int>) {
    forall h :: h in known ==> Names(body, h) && known[h] == body(h).height >= 1
  }

  /** The i-th block accepted is the first one at its height or above. */
  ghost predicate FirstAt(known: map<HashId, int>, accepted: seq<HashId>, i: nat) {
    && i < |accepted| && accepted[i] in known
    && forall j :: 0 <= j < i ==> accepted[j] in known && known[accepted[j]] < known[accepted[i]]
  }

  /** The tip is a highest known block, and among those the first that was accepted. */
  ghost predicate TipOk(known: map<HashId, int>, accepted: seq<HashId>, tipHeight: int, tipHash: HashId) {
    && (forall h :: h in known <==> h in accepted) && (forall h :: h in known ==> known[h] <= tipHeight)
    && if tipHeight == 0 then known == map[]
       else exists i: nat :: FirstAt(known, accepted, i) && accepted[i] == tipHash && known[tipHash] == tipHeight
  }

  /** The i-th block accepted is the first one with the transaction. */
  ghost predicate FirstWith(body: HashId -> Block, accepted: seq<HashId>, i: nat, t: TxId) {
    i < |accepted| && t in body(accepted[i]).txIDs && forall j :: 0 <= j < i ==> t !in body(accepted[j]).txIDs
  }

  /** Exactly the transactions of known blocks are indexed, each by the first block accepted that holds it. */
  ghost predicate TxOk(body: HashId -> Block, known: map<HashId, int>, accepted: seq<HashId>,
      txIndex: map<TxId, TxRef>) {
    && (forall t :: t in txIndex ==> txIndex[t].blockHash in known && known[txIndex[t].blockHash] == txIndex[t].height)
    && (forall t :: t in txIndex ==>
          exists i: nat :: FirstWith(body, accepted, i, t) && accepted[i] == txIndex[t].blockHash)
    && (forall h, t :: h in accepted && t in body(h).txIDs ==> t in txIndex)
  }

  lemma KnownNext(body: HashId -> Block, known: map<HashId, int>, b: Block)
    requires KnownOk(body, known) && Genuine(body, b) && b.height >= 1
    ensures KnownOk(body, known[b.hash := b.height])
  {
  }

  /** Accepting a block raises the tip only if it is higher. */
  lemma TipNext(known: map<HashId, int>, accepted: seq<HashId>, tipHeight: int, tipHash: HashId, hash: HashId,
      height: int)
    requires TipOk(known, accepted, tipHeight, tipHash) && height >= 1 && (hash in known ==> known[hash] == height)
    ensures var (top, tip) := if height > tipHeight then (height, hash) else (tipHeight, tipHash);
      TipOk(known[hash := height], accepted + [hash], top, tip)
  {
    var known', accepted' := known[hash := height], accepted + [hash];
    forall h ensures h in known' <==> h in accepted' {}
    if height > tipHeight {
      forall j | 0 <= j < |accepted| ensures accepted'[j] in known' && known'[accepted'[j]] < height {
        assert accepted[j] in known;
      }
      assert FirstAt(known', accepted', |accepted|);
    } else {
      var i: nat :| FirstAt(known, accepted, i) && accepted[i] == tipHash && known[tipHash] == tipHeight;
      assert forall j :: 0 <= j <= i ==> accepted'[j] == accepted[j] && accepted[j] in known;
      assert FirstAt(known', accepted', i);
    }
  }

  /** Accepting a block indexes those of its transactions that are new. */
  lemma TxNext(body: HashId -> Block, known: map<HashId, int>, accepted: seq<HashId>, txIndex: map<TxId, TxRef>,
      txIndex': map<TxId, TxRef>, b: Block)
    requires TxOk(body, known, accepted, txIndex) && body(b.hash) == b
    requires b.hash in known ==> known[b.hash] == b.height
    requires forall h :: h in known <==> h in accepted
    requires forall t :: t in txIndex ==> t in txIndex' && txIndex'[t] == txIndex[t]
    requires forall t :: t in txIndex' ==> t in txIndex || (txIndex'[t] == TxRef(b.hash, b.height) && t in b.txIDs)
    requires forall t :: t in b.txIDs ==> t in txIndex'
    ensures TxOk(body, known[b.hash := b.height], accepted + [b.hash], txIndex')
  {
    var accepted' := accepted + [b.hash];
    forall t | t in txIndex'
      ensures exists i: nat :: FirstWith(body, accepted', i, t) && accepted'[i] == txIndex'[t].blockHash {
      if t in txIndex {
        var i: nat :| FirstWith(body, accepted, i, t) && accepted[i] == txIndex[t].blockHash;
        assert FirstWith(body, accepted', i, t);
      } else {
        forall j | 0 <= j < |accepted| ensures t !in body(accepted[j]).txIDs { assert accepted[j] in accepted; }
        assert FirstWith(body, accepted', |accepted|, t);
      }
    }
  }

  /** Between two points of a run the tip moves only upwards, acceptances are added at the end, and index
      entries stay. */
  ghost predicate Onward(height0: int, hash0: HashId, accepted0: seq<HashId>, index0: map<TxId, TxRef>,
      height: int, hash: HashId, accepted: seq<HashId>, index: map<TxId, TxRef>) {
    && height >= height0 && (height == height0 ==> hash == hash0) && accepted0 <= accepted
    && forall t :: t in index0 ==> t in index && index[t] == index0[t]
  }

  // ---------- the program ----------

  class Chain {
    ghost const body: HashId -> Block
    var tipHeight: int
    var tipHash: HashId
    var known: map<HashId, int>
    var waiting: Waiting
    var txIndex: map<TxId, TxRef>
    ghost var delivered: multiset<Block>
    ghost var accepted: seq<HashId>   // the blocks accepted so far, in order
    ghost var top: int   // greatest height delivered

    ghost predicate TablesOk()
      reads this
    {
      && Filed(body, waiting, top) && KnownOk(body, known)
      && TipOk(known, accepted, tipHeight, tipHash) && TxOk(body, known, accepted, txIndex)
    }

    /** Known are exactly the linked blocks; every other delivery waits. */
    ghost predicate Valid()
      reads this
    {
      && TablesOk()
      && (forall b :: b in delivered ==> Genuine(body, b))
      && KnownLinked(body, delivered, known.Keys)
      && RestWaits(body, delivered, waiting)
    }

    constructor (ghost body: HashId -> Block)
      ensures Valid() && delivered == multiset{} && this.body == body && known == map[] && tipHeight == 0
      ensures accepted == []
    {
      this.body, tipHeight, tipHash := body, 0, "";
      known, waiting, txIndex, delivered, accepted, top := map[], map[], map[], multiset{}, [], 0;
    }

    method QueueChild(b: Block)
      modifies this`waiting
      ensures forall w :: Count(waiting, w) == Count(old(waiting), w) + if w == b then 1 else 0
      ensures Filed(body, old(waiting), top) && Genuine(body, b) && b.height <= top ==> Filed(body, waiting, top)
      ensures waiting ==
        old(waiting)[b.prev := (if b.prev in old(waiting) then old(waiting)[b.prev] else []) + [b]]
    {
      var list := if b.prev in waiting then waiting[b.prev] else [];
      waiting := waiting[b.prev := list + [b]];
    }

    method PopChildren(parent: HashId) returns (list: seq<Block>)
      modifies this`waiting
      ensures list == if parent in old(waiting) then old(waiting)[parent] else []
      ensures forall w :: Count(waiting, w) == if w.prev == parent then 0 else Count(old(waiting), w)
      ensures Filed(body, old(waiting), top) ==> Filed(body, waiting, top)
    {
      list := if parent in waiting then waiting[parent] else [];
      if |list| > 0 { waiting := waiting - {parent}; }
    }

    method IndexTxs(b: Block)
      modifies this`txIndex
      ensures forall t :: t in old(txIndex) ==> t in txIndex && txIndex[t] == old(txIndex)[t]
      ensures forall t :: t in txIndex ==> t in old(txIndex) || (txIndex[t] == TxRef(b.hash, b.height) && t in b.txIDs)
      ensures forall t :: t in b.txIDs ==> t in txIndex
    {
      for i := 0 to |b.txIDs|
        invariant forall t :: t in old(txIndex) ==> t in txIndex && txIndex[t] == old(txIndex)[t]
        invariant forall t :: t in txIndex ==>
          t in old(txIndex) || (txIndex[t] == TxRef(b.hash, b.height) && t in b.txIDs)
        invariant forall j :: 0 <= j < i ==> b.txIDs[j] in txIndex
      {
        var t := b.txIDs[i];
        if t !in txIndex { txIndex := txIndex[t := TxRef(b.hash, b.height)]; }
      }
    }

    /** Record b, raise the tip if b is higher, and index its transactions. */
    method EnterBlock(b: Block)
      requires KnownOk(body, known) && TipOk(known, accepted, tipHeight, tipHash)
      requires TxOk(body, known, accepted, txIndex)
      requires Genuine(body, b) && b.height >= 1
      modifies this`known, this`tipHeight, this`tipHash, this`txIndex, this`accepted
      ensures KnownOk(body, known) && TipOk(known, accepted, tipHeight, tipHash) && TxOk(body, known, accepted, txIndex)
      ensures known == old(known)[b.hash := b.height]
      ensures tipHeight == if b.height > old(tipHeight) then b.height else old(tipHeight)
      ensures tipHash == if b.height > old(tipHeight) then b.hash else old(tipHash)
      ensures accepted == old(accepted) + [b.hash]
      ensures forall t :: t in old(txIndex) ==> t in txIndex && txIndex[t] == old(txIndex)[t]
    {
      ghost var known0, accepted0, tx0 := known, accepted, txIndex;
      assert body(b.hash) == b && (b.hash in known ==> known[b.hash] == b.height);
      assert forall h :: h in known <==> h in accepted;
      hide TipOk, TxOk, KnownOk, Genuine;
      RaiseTip(b);
      IndexTxs(b);
      TxNext(body, known0, accepted0, tx0, txIndex, b);
    }

    method RaiseTip(b: Block)
      requires KnownOk(body, known) && TipOk(known, accepted, tipHeight, tipHash) && Genuine(body, b) && b.height >= 1
      modifies this`known, this`tipHeight, this`tipHash, this`accepted
      ensures KnownOk(body, known) && TipOk(known, accepted, tipHeight, tipHash)
      ensures known == old(known)[b.hash := b.height] && accepted == old(accepted) + [b.hash]
      ensures tipHeight == if b.height > old(tipHeight) then b.height else old(tipHeight)
      ensures tipHash == if b.height > old(tipHeight) then b.hash else old(tipHash)
    {
      TipNext(known, accepted, tipHeight, tipHash, b.hash, b.height);
      KnownNext(body, known, b);
      hide TipOk, KnownOk, Genuine;
      accepted := accepted + [b.hash];
      known := known[b.hash := b.height];
      if (tipHeight == 0 && b.height == 1 && b.prev == "") || (b.height == tipHeight + 1 && b.prev == tipHash)
         || b.height > tipHeight {
        tipHeight := b.height;
        tipHash := b.hash;
      }
    }

    /** Accept b and, recursively, everything that waits under it. */
    method AcceptBlock(b: Block)
      requires TablesOk() && Genuine(body, b) && 1 <= b.height <= top && Count(waiting, b) == 0
      modifies this
      decreases top - b.height, 1
      ensures TablesOk() && delivered == old(delivered) && top == old(top)
      ensures Onward(old(tipHeight), old(tipHash), old(accepted), old(txIndex), tipHeight, tipHash, accepted, txIndex)
      ensures old(accepted) + [b.hash] <= accepted
      ensures KnownAdds(body, old(known).Keys, old(waiting), b, known.Keys)
      ensures CountsDrop(body, old(waiting), b, waiting)
    {
      ghost var w0, k0 := waiting, known.Keys;
      hide TipOk, TxOk, KnownAdds, CountsDrop, Under, Taken, Count, Midway, KnownMidway;
      EnterBlock(b);
      var children := PopChildren(b.hash);
      assert Siblings(children, b) by {
        forall c | c in children ensures c.prev == b.hash && Genuine(body, c) && c.height <= top {
          assert c in w0[b.hash];
        }
      }
      MidwayStart(body, w0, b, children, waiting, k0, known.Keys);
      hide Filed, Siblings;
      for i := 0 to |children|
        invariant TablesOk() && delivered == old(delivered) && top == old(top)
        invariant Onward(old(tipHeight), old(tipHash), old(accepted), old(txIndex), tipHeight, tipHash, accepted,
          txIndex)
        invariant old(accepted) + [b.hash] <= accepted
        invariant Siblings(children, b)
        invariant Midway(body, w0, b, children, i, waiting) && KnownMidway(body, k0, w0, b, children, i, known.Keys)
      {
        PlaceChild(b, children, i, w0, k0);
      }
      CascadeDone(body, k0, w0, top, b, children, waiting, known.Keys);
    }

    /** The blocks waited under b's hash. */
    ghost predicate Siblings(children: seq<Block>, b: Block)
      reads this
    {
      forall c :: c in children ==> c.prev == b.hash && Genuine(body, c) && c.height <= top
    }

    /** Accept the next popped child of b if it extends b, otherwise queue it again. */
    method PlaceChild(b: Block, children: seq<Block>, i: nat, ghost w0: Waiting, ghost k0: set<HashId>)
      requires TablesOk() && Genuine(body, b) && 1 <= b.height <= top && i < |children| && Siblings(children, b)
      requires Midway(body, w0, b, children, i, waiting) && KnownMidway(body, k0, w0, b, children, i, known.Keys)
      modifies this
      decreases top - b.height, 0
      ensures TablesOk() && delivered == old(delivered) && top == old(top)
      ensures Onward(old(tipHeight), old(tipHash), old(accepted), old(txIndex), tipHeight, tipHash, accepted, txIndex)
      ensures Siblings(children, b)
      ensures Midway(body, w0, b, children, i + 1, waiting) && KnownMidway(body, k0, w0, b, children, i + 1, known.Keys)
    {
      hide TipOk, TxOk, KnownAdds, CountsDrop, Under, Taken, Count;
      var child := children[i];
      ghost var before, k1 := waiting, known.Keys;
      assert child in children && b.hash in known.Keys && known[b.hash] == b.height;
      hide KnownMidway, Midway;
      if child.prev in known && child.height == known[child.prev] + 1 {
        MidwayNotWaiting(body, w0, b, children, i, waiting);
        AcceptBlock(child);
        MidwayAccept(body, w0, b, children, i, before, waiting);
        KnownMidwayAccept(body, k0, w0, b, children, i, before, k1, known.Keys);
      } else {
        QueueChild(child);
        MidwayQueue(body, w0, b, children, i, before, waiting);
        KnownMidwayQueue(body, k0, w0, b, children, i, known.Keys);
      }
    }

    lemma ReadyByTable(b: Block)
      requires Valid()
      ensures (Genesis(b) || (b.prev in known && b.height == known[b.prev] + 1)) <==> Ready(body, delivered, b)
      ensures Ready(body, delivered, b) ==> Count(waiting, b) == 0 && b.height >= 1
    {
      hide TipOk, TxOk, Filed;
      assert Linked(body, delivered, b) || !Ready(body, delivered, b) || b !in delivered;
      RestCount(body, delivered, waiting, b);
      assert b.prev in known.Keys <==> Names(body, b.prev) && Linked(body, delivered, body(b.prev));
    }

    /** A checked block arrives: accept it when it is ready, otherwise let it wait. */
    method Deliver(b: Block)
      requires Valid() && Genuine(body, b)
      modifies this
      ensures Valid() && delivered == old(delivered) + multiset{b}
      ensures old(known).Keys <= known.Keys
      ensures Onward(old(tipHeight), old(tipHash), old(accepted), old(txIndex), tipHeight, tipHash, accepted, txIndex)
      ensures if (b.height == 1 && b.prev == "") || (b.prev in old(known) && b.height == old(known)[b.prev] + 1)
        then old(accepted) + [b.hash] <= accepted else accepted == old(accepted)
    {
      hide TipOk, TxOk, KnownOk, RestWaits, KnownLinked, Linked, Ready, KnownAdds, CountsDrop, Count, Genuine;
      ghost var d, w0, k0 := delivered, waiting, known.Keys;
      ReadyByTable(b);
      delivered := delivered + multiset{b};
      top := if b.height > top then b.height else top;
      if (b.height == 1 && b.prev == "") || (b.prev in known && b.height == known[b.prev] + 1) {
        AcceptBlock(b);
        DeliverReady(body, d, w0, top, b, k0, known.Keys, waiting);
        KnownGrew(body, k0, w0, b, known.Keys);
      } else {
        QueueChild(b);
        DeliverUnready(body, d, b, known.Keys, w0, waiting);
      }
    }

    /** No waiting block is ready. */
    lemma WaitingIsUnready(b: Block)
      requires Valid() && Count(waiting, b) > 0
      ensures b in delivered && !(b.height == 1 && b.prev == "") && !(b.prev in known && b.height == known[b.prev] + 1)
    {
      ReadyByTable(b);
    }

    /** The tip is the first block accepted at its height, and no block above it was accepted. */
    lemma TipIsFirst() returns (i: nat)
      requires Valid() && tipHeight > 0
      ensures i < |accepted| && accepted[i] == tipHash && body(tipHash).height == tipHeight
      ensures forall j :: 0 <= j < i ==> body(accepted[j]).height < tipHeight
      ensures forall j :: 0 <= j < |accepted| ==> accepted[j] in known && body(accepted[j]).height <= tipHeight
      ensures forall h :: h in known ==> h in accepted
    {
      i :| FirstAt(known, accepted, i) && accepted[i] == tipHash && known[tipHash] == tipHeight;
      forall j | 0 <= j < |accepted| ensures accepted[j] in known && body(accepted[j]).height == known[accepted[j]] {
        assert accepted[j] in accepted;
      }
    }

    /** An indexed transaction is indexed by the first block accepted that holds it; no other is held. */
    lemma IndexIsFirst(t: TxId) returns (i: nat)
      requires Valid()
      ensures t in txIndex <==> exists h :: h in accepted && t in body(h).txIDs
      ensures t in txIndex ==> i < |accepted| && txIndex[t] == TxRef(accepted[i], body(accepted[i]).height)
      ensures t in txIndex ==> t in body(accepted[i]).txIDs && forall j :: 0 <= j < i ==> t !in body(accepted[j]).txIDs
    {
      i := 0;
      if t in txIndex {
        i :| FirstWith(body, accepted, i, t) && accepted[i] == txIndex[t].blockHash;
        assert accepted[i] in accepted && accepted[i] in known;
      }
    }

    /** From the tip, the parent hashes lead through known blocks to a genesis block in exactly
        tipHeight - 1 hops. */
    lemma TipPath(k: nat)
      requires Valid() && k < tipHeight
      ensures var a := Back(body, body(tipHash), k);
        a.hash in known && known[a.hash] == a.height == tipHeight - k
        && (k == tipHeight - 1 <==> a.height == 1 && a.prev == "")
    {
      assert tipHash in known.Keys;
      LinkedPath(body, delivered, body(tipHash), k);
      var a := Back(body, body(tipHash), k);
      assert Names(body, a.hash);
      assert a.hash in known.Keys;
    }

    /** The order of delivery does not matter: chains that received the same blocks know the same
        blocks, have the same tip height, and have the same blocks waiting. */
    lemma OrderDoesNotMatter(other: Chain)
      requires Valid() && other.Valid() && body == other.body && delivered == other.delivered
      ensures known == other.known && tipHeight == other.tipHeight
      ensures forall b :: Count(waiting, b) == Count(other.waiting, b)
    {
      SameLinks(body, delivered, known, other.known);
      SameRest(body, delivered, waiting, other.waiting);
    }
  }

  lemma SameLinks(body: HashId -> Block, d: multiset<Block>, k1: map<HashId, int>, k2: map<HashId, int>)
    requires KnownLinked(body, d, k1.Keys) && KnownLinked(body, d, k2.Keys) && KnownOk(body, k1) && KnownOk(body, k2)
    ensures k1 == k2
  {
    hide Linked, Names;
    assert k1.Keys == k2.Keys;
  }

  lemma SameRest(body: HashId -> Block, d: multiset<Block>, w1: Waiting, w2: Waiting)
    requires RestWaits(body, d, w1) && RestWaits(body, d, w2)
    ensures forall b :: Count(w1, b) == Count(w2, b)
  {
    hide Linked, Count;
  }
}
