/** The mempool: a FIFO of validated transactions with expiry, a count cap and a byte cap, behind
    replay protection per device and key id. */
module Mempool {
  type TxId = string
  type Key = string

  /** The raw bytes of a transaction are kept as the key id they carry and their number. */
  datatype Entry = Entry(txID: TxId, devID: string, kid: string, seqNo: int, size: nat, added: int)
  datatype Tx = Tx(txID: TxId, devID: string, kid: string, seqNo: int, size: nat)   // kid in hex, "" when empty
  datatype AddResult = Added(entry: Entry) | Invalid | Duplicate | Replay | TooLarge
  datatype Validation = Checked(tx: Tx) | Rejected

  /** What became of an admission. */
  datatype Fate = Held | Popped | Removed | Evicted | Expired

  /** The id of a transaction names its payload, and so the device and the sequence number, but not the key
      it was signed with. */
  type Body = TxId -> (string, int)
  datatype Admission = Admission(txID: TxId, kid: string)

  function SeqKey(devID: string, kid: string): Key {
    if kid == "" then devID else devID + "|" + kid
  }

  function Of(e: Entry): Admission {
    Admission(e.txID, e.kid)
  }

  /** The replay key and the sequence number of an admission. */
  ghost function Slot(body: Body, a: Admission): (Key, int) {
    (SeqKey(body(a.txID).0, a.kid), body(a.txID).1)
  }

  // ---------- the queue, on values ----------

  function Bytes(c: seq<Entry>): nat {
    if c == [] then 0 else c[0].size + Bytes(c[1..])
  }

  lemma {:induction false} BytesAppend(c: seq<Entry>, e: Entry)
    ensures Bytes(c + [e]) == Bytes(c) + e.size
  {
    if c == [] {
      assert c + [e] == [e];
    } else {
      assert (c + [e])[1..] == c[1..] + [e];
      BytesAppend(c[1..], e);
    }
  }

  predicate Stale(e: Entry, ttl: int, now: int) {
    ttl > 0 && now - e.added > ttl
  }

  /** The queue without its leading expired entries. */
  function Swept(c: seq<Entry>, ttl: int, now: int): seq<Entry> {
    if c == [] || !Stale(c[0], ttl, now) then c else Swept(c[1..], ttl, now)
  }

  /** An entry of the given size does not fit beside c. */
  predicate MustEvict(c: seq<Entry>, capacity: int, capBytes: int, size: nat) {
    c != [] && ((capacity > 0 && |c| >= capacity) || (capBytes > 0 && Bytes(c) + size > capBytes))
  }

  /** The queue without its oldest entries, until one more entry of the given size fits both caps. */
  function Evicting(c: seq<Entry>, capacity: int, capBytes: int, size: nat): seq<Entry> {
    if MustEvict(c, capacity, capBytes, size)
    then Evicting(c[1..], capacity, capBytes, size)
    else c
  }

  function Without(c: seq<Entry>, ids: set<TxId>): seq<Entry> {
    if c == [] then [] else (if c[0].txID in ids then [] else [c[0]]) + Without(c[1..], ids)
  }

  ghost predicate Oldest(c: seq<Entry>) {
    forall i, j :: 0 <= i < j < |c| ==> c[i].added <= c[j].added
  }

  /** In an age-ordered queue the sweep leaves exactly the entries that have not expired. */
  lemma {:induction false} SweepLeavesFresh(c: seq<Entry>, ttl: int, now: int)
    requires Oldest(c)
    ensures var k := |c| - |Swept(c, ttl, now)|;
      0 <= k && Swept(c, ttl, now) == c[k..]
      && (forall i :: 0 <= i < |c| ==> (ttl > 0 && now - c[i].added > ttl <==> i < k))
  {
    if c != [] && Stale(c[0], ttl, now) { SweepLeavesFresh(c[1..], ttl, now); }
  }

  /** One more entry would break a cap. */
  ghost predicate NoRoom(count: nat, bytes: nat, capacity: int, capBytes: int, size: nat) {
    (capacity > 0 && count >= capacity) || (capBytes > 0 && bytes + size > capBytes)
  }

  /** Evicting drops no more than it must, and leaves room in both caps for an entry that fits at all. */
  lemma {:induction false} EvictingMakesRoom(c: seq<Entry>, capacity: int, capBytes: int, size: nat)
    ensures var r := Evicting(c, capacity, capBytes, size); var k := |c| - |r|;
      0 <= k && r == c[k..] && (capacity > 0 ==> |r| < capacity)
      && (capBytes > 0 && size <= capBytes ==> Bytes(r) + size <= capBytes)
      && forall i :: 0 <= i < k ==> NoRoom(|c[i..]|, Bytes(c[i..]), capacity, capBytes, size)
  {
    var r := Evicting(c, capacity, capBytes, size);
    if MustEvict(c, capacity, capBytes, size) {
      EvictingMakesRoom(c[1..], capacity, capBytes, size);
      var k := |c| - |r|;
      forall i | 0 <= i < k ensures NoRoom(|c[i..]|, Bytes(c[i..]), capacity, capBytes, size) {
        if i > 0 { assert c[i..] == c[1..][i - 1..]; } else { assert c[0..] == c; }
      }
    }
  }

  /** Removing keeps exactly the other entries. */
  lemma {:induction false} WithoutKeeps(c: seq<Entry>, ids: set<TxId>)
    ensures forall e :: e in Without(c, ids) <==> e in c && e.txID !in ids
    ensures Bytes(Without(c, ids)) <= Bytes(c) && |Without(c, ids)| <= |c|
  {
    if c != [] {
      WithoutKeeps(c[1..], ids);
      assert c == [c[0]] + c[1..];
      assert Without(c, ids) == (if c[0].txID in ids then Without(c[1..], ids) else [c[0]] + Without(c[1..], ids));
    }
  }

  // ---------- replay protection ----------

  function LastIn(last: map<Key, int>, key: Key): int {
    if key in last then last[key] else 0
  }

  class ReplayTable {
    var last: map<Key, int>

    constructor ()
      ensures last == map[]
    {
      last := map[];
    }

    function LastSeq(key: Key): int
      reads this
    {
      LastIn(last, key)
    }

    method UpdateLastSeq(devID: string, kid: string, seqNo: int) returns (ok: bool)
      modifies this
      ensures var key := SeqKey(devID, kid);
        (ok <==> seqNo > if key in old(last) then old(last)[key] else 0)
        && last == if ok then old(last)[key := seqNo] else old(last)
    {
      var key := SeqKey(devID, kid);
      ok := seqNo > LastSeq(key);
      if ok { last := last[key := seqNo]; }
    }
  }

  // ---------- the pool ----------

  /** The order lists the queue, and the entries are exactly those in the queue. */
  ghost predicate Lists(order: seq<TxId>, entries: map<TxId, Entry>, c: seq<Entry>) {
    && |order| == |c|
    && (forall i :: 0 <= i < |c| ==> c[i].txID == order[i] && order[i] in entries && entries[order[i]] == c[i])
    && (forall t :: t in entries ==> t in order)
    && forall i, j :: 0 <= i < j < |order| ==> order[i] != order[j]
  }

  lemma ListsTail(order: seq<TxId>, entries: map<TxId, Entry>, c: seq<Entry>)
    requires Lists(order, entries, c) && order != []
    ensures |c| == |order| && order[0] in entries && entries[order[0]] == c[0]
    ensures Lists(order[1..], entries - {order[0]}, c[1..])
  {
    forall t | t in entries - {order[0]} ensures t in order[1..] {
      assert t in order;
    }
  }

  lemma {:induction false} ListsSize(order: seq<TxId>, entries: map<TxId, Entry>, c: seq<Entry>)
    requires Lists(order, entries, c)
    ensures |entries| == |c| && (order != [] ==> order[0] in entries && entries[order[0]] == c[0])
  {
    if order != [] {
      ListsTail(order, entries, c);
      hide Lists;
      ListsSize(order[1..], entries - {order[0]}, c[1..]);
      OneEntryLess(entries, order[0]);
    } else {
      assert entries == map[];
    }
  }

  lemma OneEntryLess(entries: map<TxId, Entry>, t: TxId)
    requires t in entries
    ensures |entries| == |entries - {t}| + 1
  {
    assert entries.Keys == (entries - {t}).Keys + {t};
  }

  lemma ListsAppend(order: seq<TxId>, entries: map<TxId, Entry>, c: seq<Entry>, e: Entry)
    requires Lists(order, entries, c) && e.txID !in entries
    ensures Lists(order + [e.txID], entries[e.txID := e], c + [e])
  {
    var order', entries', c' := order + [e.txID], entries[e.txID := e], c + [e];
    forall i | 0 <= i < |c'| ensures c'[i].txID == order'[i] && order'[i] in entries' && entries'[order'[i]] == c'[i] {
      if i < |c| { assert order[i] in entries; }
    }
    forall t | t in entries' ensures t in order' { assert t in order || t == e.txID; }
  }

  /** Dropping the entries with the given ids from table and order drops them from the queue. */
  lemma {:induction false} ListsWithout(order: seq<TxId>, entries: map<TxId, Entry>, c: seq<Entry>, ids: set<TxId>)
    requires Lists(order, entries, c)
    ensures Lists(KeepIds(order, ids), entries - ids, Without(c, ids))
  {
    if order != [] {
      var head, rest := order[0], entries - {order[0]};
      ListsTail(order, entries, c);
      ListsWithout(order[1..], rest, c[1..], ids);
      if head in ids {
        assert entries - ids == rest - ids;
      } else {
        assert entries - ids == (rest - ids)[head := c[0]];
        ListsPrepend(KeepIds(order[1..], ids), rest - ids, Without(c[1..], ids), c[0]);
      }
    } else {
      assert entries == map[];
    }
  }

  lemma ListsPrepend(order: seq<TxId>, entries: map<TxId, Entry>, c: seq<Entry>, e: Entry)
    requires Lists(order, entries, c) && e.txID !in entries
    ensures Lists([e.txID] + order, entries[e.txID := e], [e] + c)
  {
    var order', entries', c' := [e.txID] + order, entries[e.txID := e], [e] + c;
    forall i | 0 <= i < |c'| ensures c'[i].txID == order'[i] && order'[i] in entries' && entries'[order'[i]] == c'[i] {
      if i > 0 { assert order[i - 1] in entries; }
    }
    forall t | t in entries' ensures t in order' { assert t in order || t == e.txID; }
    forall i | 0 <= i < |order| ensures order[i] != e.txID { assert order[i] in entries; }
  }

  function KeepIds(order: seq<TxId>, ids: set<TxId>): seq<TxId> {
    if order == [] then [] else (if order[0] in ids then [] else [order[0]]) + KeepIds(order[1..], ids)
  }

  function Ids(c: seq<Entry>): set<TxId> {
    set e | e in c :: e.txID
  }

  // ---------- the ledger of admissions ----------

  type Ledger = map<Admission, Fate>

  function Mark(fate: Ledger, gone: set<Admission>, f: Fate): Ledger {
    map a | a in fate :: if a in gone then f else fate[a]
  }

  function AllOf(c: seq<Entry>): set<Admission> {
    set e | e in c :: Of(e)
  }

  ghost predicate Holds(entries: map<TxId, Entry>, a: Admission) {
    a.txID in entries && entries[a.txID].kid == a.kid
  }

  /** Held are exactly the admissions in the pool. */
  ghost predicate Accounted(entries: map<TxId, Entry>, fate: Ledger) {
    (forall a :: Holds(entries, a) ==> a in fate) && forall a :: a in fate ==> (fate[a] == Held <==> Holds(entries, a))
  }

  /** Every admission used up its sequence number under its replay key, and no two share one. */
  ghost predicate NoReplay(body: Body, fate: Ledger, last: map<Key, int>) {
    && (forall a :: a in fate ==> Slot(body, a).0 in last && Slot(body, a).1 <= last[Slot(body, a).0])
    && forall a, b :: a in fate && b in fate && a != b ==> Slot(body, a) != Slot(body, b)
  }

  /** The admissions of the given ids. */
  ghost function HeldOf(entries: map<TxId, Entry>, ids: set<TxId>): set<Admission> {
    set t | t in ids && t in entries :: Admission(t, entries[t].kid)
  }

  lemma MarkGone(entries: map<TxId, Entry>, fate: Ledger, ids: set<TxId>, f: Fate)
    requires Accounted(entries, fate) && f != Held
    ensures Accounted(entries - ids, Mark(fate, HeldOf(entries, ids), f))
  {
    assert forall a :: Holds(entries - ids, a) <==> Holds(entries, a) && a.txID !in ids;
    assert forall a :: a in HeldOf(entries, ids) <==> Holds(entries, a) && a.txID in ids;
  }

  lemma MarkKeepsNoReplay(body: Body, fate: Ledger, last: map<Key, int>, gone: set<Admission>, f: Fate)
    requires NoReplay(body, fate, last)
    ensures NoReplay(body, Mark(fate, gone, f), last)
  {
  }

  /** What a sweep does to the ledger. */
  function SweptFate(c: seq<Entry>, fate: Ledger, ttl: int, now: int): Ledger {
    if c == [] || !Stale(c[0], ttl, now) then fate else SweptFate(c[1..], Mark(fate, {Of(c[0])}, Expired), ttl, now)
  }

  /** What making room does to the ledger. */
  function EvictedFate(c: seq<Entry>, fate: Ledger, capacity: int, capBytes: int, size: nat): Ledger {
    if MustEvict(c, capacity, capBytes, size)
    then EvictedFate(c[1..], Mark(fate, {Of(c[0])}, Evicted), capacity, capBytes, size)
    else fate
  }

  /** No admission so far has the replay key and sequence number of a. */
  ghost predicate Unused(body: Body, fate: Ledger, a: Admission) {
    forall b :: b in fate ==> Slot(body, b) != Slot(body, a)
  }

  /** A sequence number above the last one is new, and recording it keeps the protection. */
  lemma NextSeqIsNew(body: Body, fate: Ledger, last: map<Key, int>, a: Admission)
    requires NoReplay(body, fate, last)
    ensures var (key, seqNo) := Slot(body, a);
      seqNo > LastIn(last, key) ==> a !in fate && Unused(body, fate, a) && NoReplay(body, fate, last[key := seqNo])
  {
  }

  /** So does recording any greater number for any key, as other users of the table do. */
  lemma AdvanceKeepsNoReplay(body: Body, fate: Ledger, last: map<Key, int>, key: Key, seqNo: int)
    requires NoReplay(body, fate, last) && seqNo > LastIn(last, key)
    ensures NoReplay(body, fate, last[key := seqNo])
  {
  }

  lemma {:induction false} EvictedFateKeys(c: seq<Entry>, fate: Ledger, capacity: int, capBytes: int, size: nat)
    ensures EvictedFate(c, fate, capacity, capBytes, size).Keys == fate.Keys
    decreases |c|
  {
    if MustEvict(c, capacity, capBytes, size) {
      EvictedFateKeys(c[1..], Mark(fate, {Of(c[0])}, Evicted), capacity, capBytes, size);
    }
  }

  ghost predicate PoolOk(capacity: int, capBytes: int, entries: map<TxId, Entry>, order: seq<TxId>, curBytes: int,
      queue: seq<Entry>, clock: int) {
    && Lists(order, entries, queue) && curBytes == Bytes(queue)
    && (capacity > 0 ==> |queue| <= capacity) && (capBytes > 0 ==> curBytes <= capBytes)
    && Oldest(queue) && (forall e :: e in queue ==> e.added <= clock)
  }

  lemma PoolTail(capacity: int, capBytes: int, entries: map<TxId, Entry>, order: seq<TxId>, curBytes: int,
      queue: seq<Entry>, clock: int)
    requires PoolOk(capacity, capBytes, entries, order, curBytes, queue, clock) && queue != []
    ensures order != [] && order[0] in entries && entries[order[0]] == queue[0] && order[0] == queue[0].txID
    ensures PoolOk(capacity, capBytes, entries - {order[0]}, order[1..], curBytes - queue[0].size, queue[1..], clock)
  {
    ListsTail(order, entries, queue);
  }

  lemma PoolAppend(capacity: int, capBytes: int, entries: map<TxId, Entry>, order: seq<TxId>, curBytes: int,
      queue: seq<Entry>, clock: int, e: Entry)
    requires PoolOk(capacity, capBytes, entries, order, curBytes, queue, clock) && e.txID !in entries
    requires e.added == clock
    requires (capacity > 0 ==> |queue| < capacity) && (capBytes > 0 ==> Bytes(queue) + e.size <= capBytes)
    ensures PoolOk(capacity, capBytes, entries[e.txID := e], order + [e.txID], curBytes + e.size, queue + [e], clock)
  {
    ListsAppend(order, entries, queue, e);
    BytesAppend(queue, e);
    forall i | 0 <= i < |queue| ensures queue[i].added <= e.added { assert queue[i] in queue; }
    hide Lists, Bytes;
  }

  lemma EnterLedger(body: Body, entries: map<TxId, Entry>, fate: Ledger, last: map<Key, int>, e: Entry)
    requires Accounted(entries, fate) && NoReplay(body, fate, last) && e.txID !in entries
    requires Unused(body, fate, Of(e)) && Slot(body, Of(e)).0 in last
    requires last[Slot(body, Of(e)).0] == Slot(body, Of(e)).1
    ensures Accounted(entries[e.txID := e], fate[Of(e) := Held]) && NoReplay(body, fate[Of(e) := Held], last)
  {
    hide Slot;
    assert forall a :: Holds(entries[e.txID := e], a) <==> Holds(entries, a) || a == Of(e);
  }

  /** Removing entries keeps the order and the caps. */
  lemma PoolWithout(capacity: int, capBytes: int, entries: map<TxId, Entry>, order: seq<TxId>, curBytes: int,
      queue: seq<Entry>, clock: int, ids: set<TxId>)
    requires PoolOk(capacity, capBytes, entries, order, curBytes, queue, clock)
    ensures Lists(order, entries, queue) && curBytes == Bytes(queue)
    ensures var q := Without(queue, ids);
      PoolOk(capacity, capBytes, entries - ids, KeepIds(order, ids), Bytes(q), q, clock)
  {
    ListsWithout(order, entries, queue, ids);
    WithoutKeeps(queue, ids);
    WithoutOrdered(queue, ids);
    hide Lists, Bytes, Oldest, Without;
  }

  lemma {:induction false} WithoutOrdered(c: seq<Entry>, ids: set<TxId>)
    requires Oldest(c)
    ensures Oldest(Without(c, ids))
  {
    if c != [] {
      WithoutOrdered(c[1..], ids);
      WithoutKeeps(c[1..], ids);
      var rest := Without(c[1..], ids);
      forall i | 0 <= i < |rest| ensures c[0].added <= rest[i].added { assert rest[i] in c[1..]; }
    }
  }

  /** Removing one more held transaction takes its bytes and one entry; any other takes nothing. */
  lemma {:induction false} WithoutOneMore(order: seq<TxId>, entries: map<TxId, Entry>, c: seq<Entry>,
      done: set<TxId>, t: TxId)
    requires Lists(order, entries, c) && t !in done
    ensures var q, q' := Without(c, done), Without(c, done + {t});
      if t in entries then Bytes(q) == Bytes(q') + entries[t].size && |q| == |q'| + 1 else q' == q
  {
    if c != [] {
      ListsTail(order, entries, c);
      WithoutOneMore(order[1..], entries - {order[0]}, c[1..], done, t);
      UnfoldWithout(c, done);
      UnfoldWithout(c, done + {t});
      hide Lists, Without;
    } else {
      assert entries == map[];
    }
  }

  lemma UnfoldWithout(c: seq<Entry>, ids: set<TxId>)
    requires c != []
    ensures var rest := Without(c[1..], ids);
      Without(c, ids) == (if c[0].txID in ids then rest else [c[0]] + rest)
      && Bytes([c[0]] + rest) == c[0].size + Bytes(rest)
  {
    assert ([c[0]] + Without(c[1..], ids))[1..] == Without(c[1..], ids);
  }

  lemma {:induction false} WithoutNothing(c: seq<Entry>, ids: set<TxId>)
    requires |Without(c, ids)| == |c|
    ensures Without(c, ids) == c
  {
    if c != [] {
      WithoutKeeps(c[1..], ids);
      WithoutNothing(c[1..], ids);
      assert [c[0]] + c[1..] == c;
    }
  }

  lemma WithoutNone(c: seq<Entry>)
    ensures Without(c, {}) == c
  {
  }

  /** The fates after popping c. */
  function MarkAll(c: seq<Entry>, fate: Ledger, f: Fate): Ledger {
    if c == [] then fate else MarkAll(c[1..], Mark(fate, {Of(c[0])}, f), f)
  }

  lemma {:induction false} MarkAllMarks(c: seq<Entry>, fate: Ledger, f: Fate)
    ensures MarkAll(c, fate, f) == Mark(fate, AllOf(c), f)
  {
    if c != [] {
      MarkAllMarks(c[1..], Mark(fate, {Of(c[0])}, f), f);
      AllOfHead(c);
      assert Mark(Mark(fate, {Of(c[0])}, f), AllOf(c[1..]), f) == Mark(fate, AllOf(c), f);
    } else {
      assert Mark(fate, AllOf(c), f) == fate;
    }
  }

  lemma AllOfHead(c: seq<Entry>)
    requires c != []
    ensures AllOf(c) == {Of(c[0])} + AllOf(c[1..])
  {
    assert c == [c[0]] + c[1..];
    forall a | a in AllOf(c) ensures a in {Of(c[0])} + AllOf(c[1..]) {
      var e :| e in c && Of(e) == a;
      assert e == c[0] || e in c[1..];
    }
    assert c[0] in c;
  }

  lemma {:induction false} SweptMarks(c: seq<Entry>, fate: Ledger, ttl: int, now: int)
    ensures var k := |c| - |Swept(c, ttl, now)|;
      0 <= k && SweptFate(c, fate, ttl, now) == MarkAll(c[..k], fate, Expired)
  {
    if c != [] && Stale(c[0], ttl, now) {
      var fate' := Mark(fate, {Of(c[0])}, Expired);
      SweptMarks(c[1..], fate', ttl, now);
      var k := |c| - |Swept(c, ttl, now)|;
      assert c[..k][1..] == c[1..][..k - 1];
    }
  }

  lemma {:induction false} EvictedMarks(c: seq<Entry>, fate: Ledger, capacity: int, capBytes: int, size: nat)
    ensures var k := |c| - |Evicting(c, capacity, capBytes, size)|;
      0 <= k && EvictedFate(c, fate, capacity, capBytes, size) == MarkAll(c[..k], fate, Evicted)
    decreases |c|
  {
    if MustEvict(c, capacity, capBytes, size) {
      var fate' := Mark(fate, {Of(c[0])}, Evicted);
      EvictedMarks(c[1..], fate', capacity, capBytes, size);
      var k := |c| - |Evicting(c, capacity, capBytes, size)|;
      assert c[..k][1..] == c[1..][..k - 1];
    }
  }

  /** The admissions of a stretch of the queue. */
  lemma AdmissionsAt(order: seq<TxId>, entries: map<TxId, Entry>, c: seq<Entry>, k: nat, a: Admission)
    requires Lists(order, entries, c) && k <= |c|
    ensures a in AllOf(c[..k]) <==> Holds(entries, a) && a.txID in order[..k]
  {
    if Holds(entries, a) && a.txID in order[..k] {
      var i :| 0 <= i < k && order[i] == a.txID;
      assert c[i] in c[..k] && Of(c[i]) == a;
    }
    if a in AllOf(c[..k]) {
      var e :| e in c[..k] && Of(e) == a;
      var i :| 0 <= i < k && c[i] == e;
      assert order[i] == a.txID && order[i] in order[..k];
    }
  }

  /** A sweep expires exactly the held admissions that are too old, and settled fates stay. */
  lemma SweepExpiresTheStale(order: seq<TxId>, entries: map<TxId, Entry>, c: seq<Entry>, fate: Ledger, ttl: int,
      now: int)
    requires Lists(order, entries, c) && Accounted(entries, fate) && Oldest(c)
    ensures var after := SweptFate(c, fate, ttl, now);
      after.Keys == fate.Keys && forall a :: a in fate ==>
        after[a] == if Holds(entries, a) && ttl > 0 && now - entries[a.txID].added > ttl then Expired else fate[a]
  {
    SweepLeavesFresh(c, ttl, now);
    var k := |c| - |Swept(c, ttl, now)|;
    SweptMarks(c, fate, ttl, now);
    MarkAllMarks(c[..k], fate, Expired);
    forall a | a in fate
      ensures a in AllOf(c[..k]) <==> Holds(entries, a) && Stale(entries[a.txID], ttl, now) {
      AdmissionsAt(order, entries, c, k, a);
      if Holds(entries, a) { var _ := IndexOf(order, entries, c, k, a.txID); }
    }
  }

  /** Where an entry is listed. */
  lemma IndexOf(order: seq<TxId>, entries: map<TxId, Entry>, c: seq<Entry>, k: nat, t: TxId) returns (i: nat)
    requires Lists(order, entries, c) && k <= |c| && t in entries
    ensures i < |c| && order[i] == t && c[i] == entries[t] && (t in order[..k] <==> i < k)
  {
    i :| i < |order| && order[i] == t;
  }

  /** Making room evicts the oldest held admissions, as many as leave the queue, and settled fates stay. */
  lemma EvictionTakesTheOldest(order: seq<TxId>, entries: map<TxId, Entry>, c: seq<Entry>, fate: Ledger,
      capacity: int, capBytes: int, size: nat)
    requires Lists(order, entries, c) && Accounted(entries, fate)
    ensures var after := EvictedFate(c, fate, capacity, capBytes, size);
      var k := |c| - |Evicting(c, capacity, capBytes, size)|;
      0 <= k <= |order| && after.Keys == fate.Keys && forall a :: a in fate ==>
        after[a] == if Holds(entries, a) && a.txID in order[..k] then Evicted else fate[a]
  {
    var k := |c| - |Evicting(c, capacity, capBytes, size)|;
    EvictedMarks(c, fate, capacity, capBytes, size);
    MarkAllMarks(c[..k], fate, Evicted);
    forall a | a in fate ensures a in AllOf(c[..k]) <==> Holds(entries, a) && a.txID in order[..k] {
      AdmissionsAt(order, entries, c, k, a);
    }
  }

  // ---------- adding a transaction ----------

  /** The queue, the ledger and the replay table. */
  datatype Contents = Contents(queue: seq<Entry>, fate: Ledger, last: map<Key, int>)

  /** A validated transaction enters the queue unless its id is there, its number is not above the last one,
      or it alone exceeds the byte cap. */
  function Adding(capacity: int, ttl: int, capBytes: int, s: Contents, tx: Tx, now: int): (AddResult, Contents) {
    var q, f, key := Swept(s.queue, ttl, now), SweptFate(s.queue, s.fate, ttl, now), SeqKey(tx.devID, tx.kid);
    if tx.txID in Ids(q) then (Duplicate, Contents(q, f, s.last))
    else if tx.seqNo <= LastIn(s.last, key) then (Replay, Contents(q, f, s.last))
    else if capBytes > 0 && tx.size > capBytes then (TooLarge, Contents(q, f, s.last[key := tx.seqNo]))
    else
      var e := Entry(tx.txID, tx.devID, tx.kid, tx.seqNo, tx.size, now);
      (Added(e), Contents(Evicting(q, capacity, capBytes, tx.size) + [e],
        EvictedFate(q, f, capacity, capBytes, tx.size)[Of(e) := Held], s.last[key := tx.seqNo]))
  }

  ghost predicate NotHeld(fate: Ledger, t: TxId) {
    forall a :: a in fate && a.txID == t ==> fate[a] != Held
  }

  /** A sweep leaves exactly the fresh entries. */
  lemma SweptIds(order: seq<TxId>, entries: map<TxId, Entry>, c: seq<Entry>, ttl: int, now: int, t: TxId)
    requires Lists(order, entries, c) && Oldest(c)
    ensures t in Ids(Swept(c, ttl, now)) <==> t in entries && !Stale(entries[t], ttl, now)
  {
    SweepLeavesFresh(c, ttl, now);
    var q := Swept(c, ttl, now);
    var k := |c| - |q|;
    if t in Ids(q) {
      var i :| 0 <= i < |q| && q[i].txID == t;
      assert q[i] == c[i + k] && order[i + k] == t;
    }
    if t in entries && !Stale(entries[t], ttl, now) {
      var i := IndexOf(order, entries, c, k, t);
      assert c[i] == q[i - k] && q[i - k] in q;
    }
  }

  /** After a sweep an id is in the queue exactly when an admission of it is held. */
  lemma QueuedIffHeld(order: seq<TxId>, entries: map<TxId, Entry>, c: seq<Entry>, fate: Ledger, ttl: int, now: int,
      t: TxId)
    requires Lists(order, entries, c) && Oldest(c) && Accounted(entries, fate)
    ensures t in Ids(Swept(c, ttl, now)) <==> !NotHeld(SweptFate(c, fate, ttl, now), t)
  {
    SweepExpiresTheStale(order, entries, c, fate, ttl, now);
    SweptIds(order, entries, c, ttl, now, t);
    hide Lists, Oldest, Swept, SweptFate, Ids, Stale;
    if t in entries { assert Holds(entries, Admission(t, entries[t].kid)); }
  }

  /** An id admitted before is added again if and only if none of its admissions is held after the sweep, it
      fits the byte cap, and its number is above the last one of the key it now comes under.  That
      key is then another one, and the earlier fates of the id stay. */
  lemma AddedAgainIff(body: Body, order: seq<TxId>, entries: map<TxId, Entry>, capacity: int, ttl: int, capBytes: int,
      s: Contents, tx: Tx, now: int, kid: string)
    requires Lists(order, entries, s.queue) && Oldest(s.queue) && Accounted(entries, s.fate)
    requires NoReplay(body, s.fate, s.last) && body(tx.txID) == (tx.devID, tx.seqNo)
    requires Admission(tx.txID, kid) in s.fate
    ensures Adding(capacity, ttl, capBytes, s, tx, now).0.Added? <==>
      (NotHeld(SweptFate(s.queue, s.fate, ttl, now), tx.txID) && (capBytes <= 0 || tx.size <= capBytes)
      && tx.seqNo > LastIn(s.last, SeqKey(tx.devID, tx.kid)))
    ensures var f, (r, s') := SweptFate(s.queue, s.fate, ttl, now), Adding(capacity, ttl, capBytes, s, tx, now);
      var again, before := Admission(tx.txID, tx.kid), Admission(tx.txID, kid);
      r.Added? ==>
        again != before && again in s'.fate && s'.fate[again] == Held
        && before in f && before in s'.fate && s'.fate[before] == f[before] != Held
  {
    var q, f, a := Swept(s.queue, ttl, now), SweptFate(s.queue, s.fate, ttl, now), Admission(tx.txID, kid);
    QueuedIffHeld(order, entries, s.queue, s.fate, ttl, now, tx.txID);
    SweepExpiresTheStale(order, entries, s.queue, s.fate, ttl, now);
    NextSeqIsNew(body, s.fate, s.last, Admission(tx.txID, tx.kid));
    EvictedMarks(q, f, capacity, capBytes, tx.size);
    var k := |q| - |Evicting(q, capacity, capBytes, tx.size)|;
    MarkAllMarks(q[..k], f, Evicted);
    hide Lists, Accounted, NoReplay, Oldest, Swept, SweptFate, Evicting, EvictedFate, Stale;
    if tx.txID !in Ids(q) { assert a !in AllOf(q[..k]); }
  }

  lemma KeysDiffer(dev: string, kid: string, kid': string)
    requires kid != kid'
    ensures SeqKey(dev, kid) != SeqKey(dev, kid')
  {
    if kid != "" && kid' != "" {
      assert (dev + "|" + kid)[|dev| + 1..] == kid;
      assert (dev + "|" + kid')[|dev| + 1..] == kid';
    }
  }

  /** A hex string holds no separator. */
  predicate IsHex(kid: string) {
    '|' !in kid
  }

  /** Two pairs of device and key id share a replay key exactly when they are equal, or one has no key id and
      spells the other with the separator in its device id. */
  lemma KeysMeet(dev: string, kid: string, dev': string, kid': string)
    requires IsHex(kid) && IsHex(kid')
    ensures SeqKey(dev, kid) == SeqKey(dev', kid') <==> ((dev == dev' && kid == kid')
      || (kid == "" && kid' != "" && dev == dev' + "|" + kid') || (kid' == "" && kid != "" && dev' == dev + "|" + kid))
  {
    if SeqKey(dev, kid) == SeqKey(dev', kid') && kid != "" && kid' != "" {
      var s := dev + "|" + kid;
      LastSeparator(dev, kid, |dev'|, dev' + "|" + kid');
      LastSeparator(dev', kid', |dev|, s);
      assert |dev| == |dev'|;
      assert s[..|dev|] == dev && s[..|dev'|] == dev';
      assert s[|dev| + 1..] == kid && s[|dev'| + 1..] == kid';
    }
  }

  /** No separator comes after the one before a hex string. */
  lemma LastSeparator(dev: string, kid: string, i: nat, s: string)
    requires IsHex(kid) && s == dev + "|" + kid && i < |s| && s[i] == '|'
    ensures i <= |dev|
  {
    assert forall j :: |dev| < j < |s| ==> s[j] == kid[j - |dev| - 1];
  }

  /** The new queue is the old one without some of its oldest, each expired or in the way of a cap, and the entry. */
  ghost predicate Follows(c: seq<Entry>, c': seq<Entry>, e: Entry, capacity: int, ttl: int, capBytes: int, now: int) {
    exists k: nat :: k <= |c| && c' == c[k..] + [e] && forall i :: 0 <= i < k ==>
      (ttl > 0 && now - c[i].added > ttl) || NoRoom(|c[i..]|, Bytes(c[i..]), capacity, capBytes, e.size)
  }

  lemma FollowsQueue(c: seq<Entry>, capacity: int, ttl: int, capBytes: int, e: Entry, now: int)
    requires Oldest(c)
    ensures Follows(c, Evicting(Swept(c, ttl, now), capacity, capBytes, e.size) + [e], e, capacity, ttl, capBytes, now)
  {
    SweepLeavesFresh(c, ttl, now);
    var q := Swept(c, ttl, now);
    EvictingMakesRoom(q, capacity, capBytes, e.size);
    var r := Evicting(q, capacity, capBytes, e.size);
    var j, k := |c| - |q|, |c| - |r|;
    assert r == c[k..];
    forall i | 0 <= i < k
      ensures (ttl > 0 && now - c[i].added > ttl) || NoRoom(|c[i..]|, Bytes(c[i..]), capacity, capBytes, e.size) {
      if i >= j { assert c[i..] == q[i - j..]; }
    }
  }

  /** What became of the transaction, and why: the first of these that applies. */
  lemma AddingExits(order: seq<TxId>, entries: map<TxId, Entry>, capacity: int, ttl: int, capBytes: int, s: Contents,
      tx: Tx, now: int)
    requires Lists(order, entries, s.queue) && Oldest(s.queue)
    ensures var (r, s') := Adding(capacity, ttl, capBytes, s, tx, now);
      var key := SeqKey(tx.devID, tx.kid);
      var there := tx.txID in entries && !(ttl > 0 && now - entries[tx.txID].added > ttl);
      var replayed := tx.seqNo <= if key in s.last then s.last[key] else 0;
      var tooLarge := capBytes > 0 && tx.size > capBytes;
      (r.Duplicate? <==> there) && (r.Replay? <==> !there && replayed)
      && (r.TooLarge? <==> !there && !replayed && tooLarge) && (r.Added? <==> !there && !replayed && !tooLarge)
      && s'.last == (if there || replayed then s.last else s.last[key := tx.seqNo])
      && (r.Added? ==> r.entry == Entry(tx.txID, tx.devID, tx.kid, tx.seqNo, tx.size, now))
      && (r.Added? ==> Follows(s.queue, s'.queue, r.entry, capacity, ttl, capBytes, now))
  {
    FollowsQueue(s.queue, capacity, ttl, capBytes, Entry(tx.txID, tx.devID, tx.kid, tx.seqNo, tx.size, now), now);
    SweptIds(order, entries, s.queue, ttl, now, tx.txID);
    hide Lists, Oldest, Swept, SweptFate, Evicting, EvictedFate, Ids;
  }

  /** One payload signed under two keys: added, popped and added again. */
  lemma SameIdUnderTwoKeys(capacity: int, ttl: int, capBytes: int, tx: Tx, kid: string, now: int, later: int)
    requires kid != tx.kid && tx.seqNo > 0 && (capBytes <= 0 || tx.size <= capBytes)
    ensures var (r1, s1) := Adding(capacity, ttl, capBytes, Contents([], map[], map[]), tx, now);
      var popped := Contents([], MarkAll(s1.queue, s1.fate, Popped), s1.last);
      var (r2, s2) := Adding(capacity, ttl, capBytes, popped, tx.(kid := kid), later);
      r1.Added? && r2.Added? && r1.entry.txID == r2.entry.txID == tx.txID
      && s2.fate == map[Admission(tx.txID, tx.kid) := Popped, Admission(tx.txID, kid) := Held]
  {
    KeysDiffer(tx.devID, tx.kid, kid);
    var e := Entry(tx.txID, tx.devID, tx.kid, tx.seqNo, tx.size, now);
    assert Evicting([], capacity, capBytes, tx.size) + [e] == [e];
    assert MarkAll([e], map[Of(e) := Held], Popped) == map[Of(e) := Popped];
  }

  class Pool {
    const capacity: int
    const ttl: int
    const capBytes: int
    const replay: ReplayTable
    ghost const body: Body
    var entries: map<TxId, Entry>
    var order: seq<TxId>
    var curBytes: int
    ghost var queue: seq<Entry>   // the entries in arrival order
    ghost var fate: Ledger        // every admission so far
    ghost var clock: int

    ghost function View(): Contents
      reads this, replay
    {
      Contents(queue, fate, replay.last)
    }

    ghost predicate Valid()
      reads this, replay
    {
      && PoolOk(capacity, capBytes, entries, order, curBytes, queue, clock)
      && Accounted(entries, fate) && NoReplay(body, fate, replay.last)
    }

    constructor (capacity: int, ttl: int, capBytes: int, replay: ReplayTable, ghost body: Body)
      ensures Valid() && queue == [] && fate == map[] && this.replay == replay && this.body == body
    {
      this.capacity, this.ttl, this.capBytes, this.replay, this.body := capacity, ttl, capBytes, replay, body;
      entries, order, curBytes, queue, fate, clock := map[], [], 0, [], map[], 0;
    }

    /** Drop the head of the queue. */
    method DropOldest(ghost f: Fate)
      requires Valid() && queue != [] && f != Held
      modifies this`entries, this`order, this`curBytes, this`queue, this`fate
      ensures Valid() && entries.Keys <= old(entries).Keys
      ensures queue == old(queue)[1..] && fate == Mark(old(fate), {Of(old(queue)[0])}, f)
    {
      PoolTail(capacity, capBytes, entries, order, curBytes, queue, clock);
      hide PoolOk, Accounted, NoReplay, Mark;
      var oldest := order[0];
      assert HeldOf(entries, {oldest}) == {Of(queue[0])};
      MarkGone(entries, fate, {oldest}, f);
      MarkKeepsNoReplay(body, fate, replay.last, {Of(queue[0])}, f);
      curBytes := curBytes - entries[oldest].size;
      entries := entries - {oldest};
      order := order[1..];
      fate := Mark(fate, {Of(queue[0])}, f);
      queue := queue[1..];
    }

    lemma Head()
      requires Valid()
      ensures |order| == |queue| && curBytes == Bytes(queue) && |entries| == |queue|
      ensures order != [] ==> order[0] in entries && entries[order[0]] == queue[0]
    {
      ListsSize(order, entries, queue);
    }

    /** Expired entries leave from the head. */
    method Sweep(now: int)
      requires Valid() && now >= clock
      modifies this
      ensures Valid() && clock == now
      ensures queue == Swept(old(queue), ttl, now) && fate == SweptFate(old(queue), old(fate), ttl, now)
    {
      clock := now;
      assert Valid();
      hide PoolOk, Accounted, NoReplay, Mark;
      if ttl <= 0 { return; }
      Head();
      while |order| > 0
        invariant Valid() && |order| == |queue|
        invariant Swept(queue, ttl, now) == Swept(old(queue), ttl, now)
        invariant SweptFate(queue, fate, ttl, now) == SweptFate(old(queue), old(fate), ttl, now)
        invariant clock == now
        decreases |order|
      {
        Head();
        if now - entries[order[0]].added <= ttl { break; }
        DropOldest(Expired);
        Head();
      }
    }

    /** Make room for an entry of the given size: first by count, then by bytes. */
    method MakeRoom(size: nat)
      requires Valid() && (capBytes > 0 ==> size <= capBytes)
      modifies this`entries, this`order, this`curBytes, this`queue, this`fate
      ensures Valid() && entries.Keys <= old(entries).Keys
      ensures queue == Evicting(old(queue), capacity, capBytes, size)
      ensures fate == EvictedFate(old(queue), old(fate), capacity, capBytes, size)
      ensures (capacity > 0 ==> |queue| < capacity) && (capBytes > 0 ==> Bytes(queue) + size <= capBytes)
    {
      hide PoolOk, Accounted, NoReplay, Mark;
      EvictingMakesRoom(queue, capacity, capBytes, size);
      Head();
      while capacity > 0 && |entries| >= capacity
        invariant Valid() && |entries| == |queue| && entries.Keys <= old(entries).Keys
        invariant Evicting(queue, capacity, capBytes, size) == Evicting(old(queue), capacity, capBytes, size)
        invariant EvictedFate(queue, fate, capacity, capBytes, size)
          == EvictedFate(old(queue), old(fate), capacity, capBytes, size)
        decreases |queue|
      {
        DropOldest(Evicted);
        Head();
      }
      if capBytes > 0 {
        Head();
        while curBytes + size > capBytes && |order| > 0
          invariant Valid() && entries.Keys <= old(entries).Keys
          invariant |order| == |queue| && curBytes == Bytes(queue) && (capacity > 0 ==> |queue| < capacity)
          invariant Evicting(queue, capacity, capBytes, size) == Evicting(old(queue), capacity, capBytes, size)
          invariant EvictedFate(queue, fate, capacity, capBytes, size)
            == EvictedFate(old(queue), old(fate), capacity, capBytes, size)
          decreases |order|
        {
          DropOldest(Evicted);
          Head();
        }
        assert curBytes + size <= capBytes;   // the mempool_full exit is never taken
      }
    }

    lemma HeldIds()
      requires Valid()
      ensures entries.Keys == Ids(queue)
    {
      forall t | t in entries ensures t in Ids(queue) {
        var i :| 0 <= i < |order| && order[i] == t;
        assert queue[i] in queue;
      }
    }

    method Enter(e: Entry)
      requires Valid() && (capacity > 0 ==> |queue| < capacity) && (capBytes > 0 ==> Bytes(queue) + e.size <= capBytes)
      requires e.added == clock && e.txID !in entries && Unused(body, fate, Of(e))
      requires Slot(body, Of(e)).0 in replay.last && replay.last[Slot(body, Of(e)).0] == Slot(body, Of(e)).1
      modifies this`entries, this`order, this`curBytes, this`queue, this`fate
      ensures Valid() && queue == old(queue) + [e] && fate == old(fate)[Of(e) := Held]
    {
      PoolAppend(capacity, capBytes, entries, order, curBytes, queue, clock, e);
      EnterLedger(body, entries, fate, replay.last, e);
      hide PoolOk, Accounted, NoReplay, Unused, Bytes;
      entries := entries[e.txID := e];
      order := order + [e.txID];
      curBytes := curBytes + e.size;
      queue := queue + [e];
      fate := fate[Of(e) := Held];
    }

    /** Every exit as specified; what is added was not admitted before under the same key. */
    method AddValidated(v: Validation, now: int) returns (r: AddResult)
      requires Valid() && now >= clock
      requires v.Checked? ==> body(v.tx.txID) == (v.tx.devID, v.tx.seqNo)
      modifies this, replay
      ensures Valid()
      ensures v.Rejected? ==> r == Invalid && View() == old(View())
      ensures v.Checked? ==> (r, View()) == Adding(capacity, ttl, capBytes, old(View()), v.tx, now)
      ensures r.Added? ==> v.Checked? && Admission(v.tx.txID, v.tx.kid) !in old(fate)
    {
      if v.Rejected? { return Invalid; }
      var tx := v.tx;
      ghost var a := Admission(tx.txID, tx.kid);
      NextSeqIsNew(body, fate, replay.last, a);
      hide PoolOk, Accounted, NoReplay, Mark, SweptFate, EvictedFate, Swept, Evicting;
      Sweep(now);
      HeldIds();
      if tx.txID in entries { return Duplicate; }
      NextSeqIsNew(body, fate, replay.last, a);
      var advanced := replay.UpdateLastSeq(tx.devID, tx.kid, tx.seqNo);
      if !advanced { return Replay; }
      if capBytes > 0 && tx.size > capBytes { return TooLarge; }
      ghost var f, e0 := fate, entries.Keys;
      MakeRoom(tx.size);
      EvictedFateKeys(Swept(old(queue), ttl, now), f, capacity, capBytes, tx.size);
      var e := Entry(tx.txID, tx.devID, tx.kid, tx.seqNo, tx.size, now);
      Enter(e);
      return Added(e);
    }

    method Len(now: int) returns (n: nat)
      requires Valid() && now >= clock
      modifies this
      ensures Valid() && queue == Swept(old(queue), ttl, now) && n == |queue|
      ensures fate == SweptFate(old(queue), old(fate), ttl, now)
    {
      Sweep(now);
      Head();
      n := |entries|;
    }

    /** The oldest entries leave in arrival order; a count of zero or less means all of them. */
    method PopBatch(max: int, now: int) returns (out: seq<Entry>)
      requires Valid() && now >= clock
      modifies this
      ensures Valid()
      ensures var q := Swept(old(queue), ttl, now);
        var n := if max <= 0 || max > |q| then |q| else max;
        out == q[..n] && queue == q[n..] && fate == MarkAll(out, SweptFate(old(queue), old(fate), ttl, now), Popped)
    {
      hide PoolOk, Accounted, NoReplay, Mark, Swept, SweptFate;
      Sweep(now);
      Head();
      ghost var q, f := queue, fate;
      var n := max;
      if n <= 0 || n > |order| { n := |order|; }
      out := [];
      for i := 0 to n
        invariant Valid() && |order| == |queue| && queue == q[i..] && out == q[..i]
        invariant MarkAll(q[i..n], fate, Popped) == MarkAll(q[..n], f, Popped)
      {
        Head();
        assert q[i..n] == [q[i]] + q[i + 1..n];
        out := out + [entries[order[0]]];
        DropOldest(Popped);
        Head();
      }
      assert q[..n][..] == q[..n];
    }

    /** Transactions that entered a block leave the pool; the others keep their order. */
    method RemoveTxIDs(ids: seq<TxId>) returns (removed: nat)
      requires Valid()
      modifies this`entries, this`order, this`curBytes, this`queue, this`fate
      ensures Valid() && queue == Without(old(queue), set t | t in ids) && removed == |old(queue)| - |queue|
      ensures fate == Mark(old(fate), HeldOf(old(entries), set t | t in ids), Removed)
    {
      hide PoolOk, Accounted, NoReplay, Mark, Lists, Without, KeepIds, Bytes;
      var rm := set t | t in ids;
      if |ids| == 0 {
        WithoutNone(queue);
        MarkNothing(fate, Removed);
        assert rm == {} && HeldOf(entries, rm) == {};
        return 0;
      }
      PoolWithout(capacity, capBytes, entries, order, curBytes, queue, clock, rm);
      MarkGone(entries, fate, rm, Removed);
      MarkKeepsNoReplay(body, fate, replay.last, HeldOf(entries, rm), Removed);
      ghost var e0 := entries;
      removed := RemoveEntries(rm);
      if removed > 0 {
        order := FilterOrder(order, rm);
      } else {
        WithoutNothing(queue, rm);
        SameOrder(e0, order, queue, rm);
      }
      fate := Mark(fate, HeldOf(e0, rm), Removed);
      queue := Without(queue, rm);
    }

    /** The ids to remove leave the table one by one, each with its bytes. */
    method RemoveEntries(rm: set<TxId>) returns (removed: nat)
      requires Lists(order, entries, queue) && curBytes == Bytes(queue)
      modifies this`entries, this`curBytes
      ensures entries == old(entries) - rm
      ensures curBytes == Bytes(Without(queue, rm)) && removed == |queue| - |Without(queue, rm)|
    {
      removed := 0;
      var rest := rm;
      ghost var e0, done := entries, {};
      WithoutNone(queue);
      hide *;
      while rest != {}
        invariant rest <= rm && done == rm - rest && entries == e0 - done
        invariant curBytes == Bytes(Without(queue, done)) && removed == |queue| - |Without(queue, done)|
        decreases |rest|
      {
        var t :| t in rest;
        WithoutOneMore(order, e0, queue, done, t);
        OneLess(e0, done, t);
        if t in entries {
          curBytes := curBytes - entries[t].size;
          entries := entries - {t};
          removed := removed + 1;
        }
        done := done + {t};
        rest := rest - {t};
      }
      assert done == rm;
    }
  }

  lemma OneLess(entries: map<TxId, Entry>, done: set<TxId>, t: TxId)
    ensures (entries - done) - {t} == entries - (done + {t})
    ensures t !in entries - done ==> entries - done == entries - (done + {t})
  {
    assert (entries - done) - {t} == entries - (done + {t});
  }

  /** Rebuild an order without the given ids. */
  method FilterOrder(order: seq<TxId>, rm: set<TxId>) returns (kept: seq<TxId>)
    ensures kept == KeepIds(order, rm)
  {
    kept := [];
    for i := 0 to |order|
      invariant kept + KeepIds(order[i..], rm) == KeepIds(order, rm)
    {
      assert order[i..][1..] == order[i + 1..];
      if order[i] !in rm { kept := kept + [order[i]]; }
    }
  }

  /** If nothing was removed, the order has nothing to drop either. */
  lemma SameOrder(entries: map<TxId, Entry>, order: seq<TxId>, queue: seq<Entry>, ids: set<TxId>)
    requires Lists(order, entries, queue) && Without(queue, ids) == queue
    ensures KeepIds(order, ids) == order
  {
    ListsWithout(order, entries, queue, ids);
    var kept := KeepIds(order, ids);
    forall i | 0 <= i < |order| ensures kept[i] == order[i] { assert kept[i] == queue[i].txID; }
  }

  lemma MarkNothing(fate: Ledger, f: Fate)
    ensures Mark(fate, {}, f) == fate
  {
  }
}
