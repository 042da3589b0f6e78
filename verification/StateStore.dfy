/** The keyed store of stream states: sequence checks, time-to-live, capacity, and what they mean over whole runs. */
module StoreSpec {
  import opened BookEvents
  import opened BookMeaning

  datatype StreamKey = StreamKey(venue: string, symbol: string, channel: string)

  datatype Limits = Limits(maxEntries: int, ttl: int)

  datatype Entry = Entry(view: View, lastSeq: int, lastSeen: int)

  datatype Store = Store(entries: map<StreamKey, Entry>, order: seq<StreamKey>)

  ghost predicate NoDup(s: seq<StreamKey>) {
    forall i, j :: 0 <= i < j < |s| ==> s[i] != s[j]
  }

  /** `order` lists the resident keys, each once, oldest insertion first. */
  ghost predicate Listed(s: Store) {
    NoDup(s.order) && forall k :: k in s.order <==> k in s.entries
  }

  ghost predicate WellFormed(lim: Limits, s: Store) {
    Listed(s) && lim.maxEntries >= 1 && |s.entries| <= lim.maxEntries
  }

  predicate Expired(lim: Limits, e: Entry, now: int) {
    now - e.lastSeen > lim.ttl
  }

  /** The store without its `n` oldest insertions. */
  ghost function DropOldest(s: Store, n: nat): Store
    requires n <= |s.order|
  {
    Store(map k | k in s.entries && k !in s.order[..n] :: s.entries[k], s.order[n..])
  }

  /** How far the expiry scan gets from `i`: past keys that are gone or idle too long, up to the first fresh entry. */
  function ScanExpired(lim: Limits, s: Store, now: int, i: nat): (n: nat)
    requires i <= |s.order|
    ensures i <= n <= |s.order|
    ensures forall j :: i <= j < n ==> s.order[j] !in s.entries || Expired(lim, s.entries[s.order[j]], now)
    ensures n < |s.order| ==> s.order[n] in s.entries && !Expired(lim, s.entries[s.order[n]], now)
    decreases |s.order| - i
  {
    if i < |s.order| && (s.order[i] !in s.entries || Expired(lim, s.entries[s.order[i]], now))
    then ScanExpired(lim, s, now, i + 1) else i
  }

  /** evictExpiredLocked */
  ghost function EvictExpired(lim: Limits, s: Store, now: int): Store {
    DropOldest(s, ScanExpired(lim, s, now, 0))
  }

  /** putLocked, with evictCapacityLocked: a newcomer past capacity costs the oldest insertion its place */
  ghost function Put(lim: Limits, s: Store, key: StreamKey, e: Entry): Store {
    var grown := Grown(s, key, e);
    if |grown.entries| > lim.maxEntries && grown.order != [] then DropOldest(grown, 1) else grown
  }

  datatype Op = Op(key: StreamKey, seqNo: int, update: BookUpdate, now: int)

  const EMPTY_VIEW := View(map[], map[])

  /** The sequence and presence checks made after expiry, and then the book's own validation. */
  ghost predicate Admitted(s: Store, op: Op) {
    && Accepted(op.update)
    && (if op.update.Snapshot? then op.key in s.entries ==> op.seqNo > s.entries[op.key].lastSeq
        else op.key in s.entries && op.seqNo > s.entries[op.key].lastSeq)
  }

  /** UpsertSnapshot or ApplyDelta, once expired entries are gone */
  ghost function Act(lim: Limits, s: Store, op: Op): Store {
    if !Admitted(s, op) then s
    else if op.update.Snapshot? then Put(lim, s, op.key, Entry(Apply(EMPTY_VIEW, op.update), op.seqNo, op.now))
    else s.(entries := s.entries[op.key := Entry(Apply(s.entries[op.key].view, op.update), op.seqNo, op.now)])
  }

  ghost function Step(lim: Limits, s: Store, op: Op): Store {
    Act(lim, EvictExpired(lim, s, op.now), op)
  }

  ghost predicate AdmittedAt(lim: Limits, s: Store, op: Op) {
    Admitted(EvictExpired(lim, s, op.now), op)
  }

  // ---------------------------------------------------------------- one operation

  lemma {:induction false} ListingSize(order: seq<StreamKey>, keys: set<StreamKey>)
    requires NoDup(order) && forall k :: k in order <==> k in keys
    ensures |order| == |keys|
  {
    if order == [] {
      assert keys == {};
    } else {
      var k := order[0];
      assert k in keys;
      assert forall j :: j in order[1..] <==> j in keys - {k};
      ListingSize(order[1..], keys - {k});
    }
  }

  lemma DropOldestKeepsListed(s: Store, n: nat)
    requires Listed(s) && n <= |s.order|
    ensures var r := DropOldest(s, n);
            Listed(r) && |r.entries| == |s.entries| - n && |s.entries| == |s.order| &&
            forall k :: k in r.entries <==> k in s.entries && k !in s.order[..n]
  {
    var r := DropOldest(s, n);
    assert s.order == s.order[..n] + s.order[n..];
    ListingSize(s.order, s.entries.Keys);
    ListingSize(r.order, r.entries.Keys);
  }

  /** A resident entry is expired away exactly when it and everything inserted before it have been idle too long. */
  lemma ExpiryExactly(lim: Limits, s: Store, now: int, pos: nat)
    requires Listed(s) && pos < |s.order|
    ensures var key, r := s.order[pos], EvictExpired(lim, s, now);
            && (key !in r.entries <==> forall j :: 0 <= j <= pos ==> s.entries[s.order[j]].lastSeen + lim.ttl < now)
            && (key in r.entries ==> r.entries[key] == s.entries[key])
  {
  }

  /** The key is resident, and it or an older insertion was seen no longer ago than the time to live. */
  ghost predicate StillThere(lim: Limits, s: Store, now: int, key: StreamKey) {
    key in s.entries &&
    exists pos, j :: 0 <= j <= pos < |s.order| && s.order[pos] == key && s.order[j] in s.entries &&
                     now <= s.entries[s.order[j]].lastSeen + lim.ttl
  }

  lemma EvictedAt(lim: Limits, s: Store, now: int, pos: nat, r: Store)
    requires Listed(s) && pos < |s.order| && r == EvictExpired(lim, s, now)
    ensures s.order[pos] in r.entries <==> StillThere(lim, s, now, s.order[pos])
    ensures s.order[pos] in r.entries ==> r.entries[s.order[pos]] == s.entries[s.order[pos]]
  {
    ExpiryExactly(lim, s, now, pos);
    assert NoDup(s.order);
  }

  lemma EvictedExactly(lim: Limits, s: Store, now: int, key: StreamKey, r: Store)
    requires Listed(s) && r == EvictExpired(lim, s, now)
    ensures key in r.entries <==> StillThere(lim, s, now, key)
    ensures key in r.entries ==> r.entries[key] == s.entries[key]
  {
    if key in s.entries {
      var pos: nat :| pos < |s.order| && s.order[pos] == key;
      EvictedAt(lim, s, now, pos, r);
    }
  }

  /**
   * An operation is admitted exactly if both sides are well quoted, its sequence number is above the last of its key where
   * that is still there, and, for a delta, it is still there.
   */
  lemma AdmittedExactly(lim: Limits, s: Store, op: Op)
    requires Listed(s)
    ensures var there := StillThere(lim, s, op.now, op.key);
            AdmittedAt(lim, s, op) <==>
            && AllQuotedWell(op.update.bids, op.update.Delta?) && AllQuotedWell(op.update.asks, op.update.Delta?)
            && (there ==> op.seqNo > s.entries[op.key].lastSeq) && (op.update.Delta? ==> there)
  {
    AcceptedExactly(op.update);
    EvictedExactly(lim, s, op.now, op.key, EvictExpired(lim, s, op.now));
  }

  lemma FreshFront(lim: Limits, s: Store, now: int)
    requires s.order != [] && s.order[0] in s.entries && !Expired(lim, s.entries[s.order[0]], now)
    ensures EvictExpired(lim, s, now) == s
  {
    assert DropOldest(s, 0) == s;
  }

  lemma EvictExpiredKeeps(lim: Limits, s: Store, now: int)
    requires WellFormed(lim, s)
    ensures var r := EvictExpired(lim, s, now);
            WellFormed(lim, r) && forall k :: k in r.entries ==> k in s.entries && r.entries[k] == s.entries[k]
  {
    DropOldestKeepsListed(s, ScanExpired(lim, s, now, 0));
  }

  ghost function Grown(s: Store, key: StreamKey, e: Entry): Store {
    Store(s.entries[key := e], if key in s.entries then s.order else s.order + [key])
  }

  lemma GrownKeepsListed(s: Store, key: StreamKey, e: Entry)
    requires Listed(s)
    ensures Listed(Grown(s, key, e)) && |Grown(s, key, e).entries| == |s.entries| + (if key in s.entries then 0 else 1)
    ensures |s.entries| == |s.order|
  {
    var g := Grown(s, key, e);
    assert forall k :: k in g.order <==> k in s.order || k == key;
    ListingSize(s.order, s.entries.Keys);
    ListingSize(g.order, g.entries.Keys);
  }

  lemma PutDropsOne(lim: Limits, s: Store, key: StreamKey, e: Entry)
    requires WellFormed(lim, s) && key !in s.entries && |s.entries| == lim.maxEntries
    ensures Put(lim, s, key, e) == DropOldest(Grown(s, key, e), 1)
    ensures |Grown(s, key, e).entries| == lim.maxEntries + 1
  {
    GrownKeepsListed(s, key, e);
  }

  lemma PutEvictsOldest(lim: Limits, s: Store, key: StreamKey, e: Entry)
    requires WellFormed(lim, s) && key !in s.entries && |s.entries| == lim.maxEntries
    ensures var r := Put(lim, s, key, e);
            && WellFormed(lim, r) && s.order != [] && s.order[0] != key
            && forall k :: k in r.entries <==> (k in s.entries || k == key) && k != s.order[0]
  {
    PutDropsOne(lim, s, key, e);
    GrownKeepsListed(s, key, e);
    DropFirst(Grown(s, key, e));
    assert s.order[0] in s.order;
  }

  lemma DropFirst(s: Store)
    requires Listed(s) && s.order != []
    ensures Listed(DropOldest(s, 1)) && |DropOldest(s, 1).entries| == |s.entries| - 1
    ensures forall k :: k in DropOldest(s, 1).entries <==> k in s.entries && k != s.order[0]
  {
    DropOldestKeepsListed(s, 1);
    assert s.order[..1] == [s.order[0]];
  }

  /** The key just put is resident with its new entry; nobody else changes, and at most the oldest insertion leaves. */
  lemma PutKeeps(lim: Limits, s: Store, key: StreamKey, e: Entry)
    requires WellFormed(lim, s)
    ensures var r := Put(lim, s, key, e);
            && WellFormed(lim, r) && key in r.entries && r.entries[key] == e
            && (forall k :: k in r.entries && k != key ==> k in s.entries && r.entries[k] == s.entries[k])
            && (forall k :: k in s.entries && k !in r.entries ==>
                            k == s.order[0] && key !in s.entries && |s.entries| == lim.maxEntries)
  {
    if key !in s.entries && |s.entries| == lim.maxEntries {
      PutEvictsOldest(lim, s, key, e);
    } else {
      PutJustGrows(lim, s, key, e);
    }
  }

  lemma PutJustGrows(lim: Limits, s: Store, key: StreamKey, e: Entry)
    requires WellFormed(lim, s) && (key in s.entries || |s.entries| < lim.maxEntries)
    ensures Put(lim, s, key, e) == Grown(s, key, e) && WellFormed(lim, Grown(s, key, e))
  {
  }

  /**
   * One operation, past the expiry pass: the store stays well formed; an admitted one leaves its key resident at the new
   * sequence number with the update applied; a rejected one changes nothing; no other key's state changes.
   */
  lemma ActKeeps(lim: Limits, s: Store, op: Op)
    requires WellFormed(lim, s)
    ensures var r := Act(lim, s, op);
            && WellFormed(lim, r)
            && (!Admitted(s, op) ==> r == s)
            && (Admitted(s, op) ==>
                op.key in r.entries && r.entries[op.key].lastSeq == op.seqNo && r.entries[op.key].lastSeen == op.now &&
                r.entries[op.key].view == Apply(if op.key in s.entries then s.entries[op.key].view else EMPTY_VIEW, op.update))
            && (forall k :: k in r.entries && k != op.key ==> k in s.entries && r.entries[k] == s.entries[k])
  {
    if Admitted(s, op) {
      if op.update.Snapshot? {
        PutKeeps(lim, s, op.key, Entry(Apply(EMPTY_VIEW, op.update), op.seqNo, op.now));
      } else {
        var r := Act(lim, s, op);
        assert r.entries.Keys == s.entries.Keys;
      }
    }
  }

  /** What one operation does to a key that it does not expire. */
  lemma StepOnResident(lim: Limits, s: Store, op: Op, key: StreamKey)
    requires WellFormed(lim, s) && key in EvictExpired(lim, s, op.now).entries && key in Step(lim, s, op).entries
    ensures key in s.entries
    ensures var was, now := s.entries[key], Step(lim, s, op).entries[key];
            if key == op.key && AdmittedAt(lim, s, op)
            then was.lastSeq < op.seqNo == now.lastSeq && now.view == Apply(was.view, op.update)
            else now == was
  {
    EvictExpiredKeeps(lim, s, op.now);
    ActOnResident(lim, EvictExpired(lim, s, op.now), op, key);
  }

  lemma ActOnResident(lim: Limits, s: Store, op: Op, key: StreamKey)
    requires WellFormed(lim, s) && key in s.entries && key in Act(lim, s, op).entries
    ensures var was, now := s.entries[key], Act(lim, s, op).entries[key];
            if key == op.key && Admitted(s, op)
            then was.lastSeq < op.seqNo == now.lastSeq && now.view == Apply(was.view, op.update)
            else now == was
  {
  }

  // ---------------------------------------------------------------- whole runs

  ghost predicate Steps(lim: Limits, s: Store, op: Op, s': Store) {
    s' == Step(lim, s, op)
  }

  ghost predicate StepAt(lim: Limits, ops: seq<Op>, run: seq<Store>, n: nat)
    requires n < |ops| && |run| == |ops| + 1
  {
    Steps(lim, run[n], ops[n], run[n + 1])
  }

  /** A run: the stores a fresh store goes through under a sequence of operations. */
  ghost predicate IsRun(lim: Limits, ops: seq<Op>, run: seq<Store>) {
    && lim.maxEntries >= 1 && |run| == |ops| + 1 && run[0] == Store(map[], [])
    && forall n :: 0 <= n < |ops| ==> StepAt(lim, ops, run, n)
  }

  lemma {:induction false} EveryRunWellFormed(lim: Limits, ops: seq<Op>, run: seq<Store>, n: nat)
    requires IsRun(lim, ops, run) && n < |run|
    ensures WellFormed(lim, run[n])
  {
    if n > 0 {
      EveryRunWellFormed(lim, ops, run, n - 1);
      assert StepAt(lim, ops, run, n - 1);
      StepKeepsWellFormed(lim, run[n - 1], ops[n - 1], run[n]);
    }
  }

  lemma StepKeepsWellFormed(lim: Limits, s: Store, op: Op, s': Store)
    requires WellFormed(lim, s) && Steps(lim, s, op, s')
    ensures WellFormed(lim, s')
  {
    EvictExpiredKeeps(lim, s, op.now);
    ActKeeps(lim, EvictExpired(lim, s, op.now), op);
  }

  ghost predicate SurvivesExpiry(lim: Limits, s: Store, now: int, key: StreamKey) {
    key in EvictExpired(lim, s, now).entries
  }

  lemma OperationOnResident(lim: Limits, s: Store, op: Op, s': Store, key: StreamKey)
    requires WellFormed(lim, s) && Steps(lim, s, op, s') && SurvivesExpiry(lim, s, op.now, key) && key in s'.entries
    ensures key in s.entries && KeyStep(s.entries[key], op, key == op.key && AdmittedAt(lim, s, op), s'.entries[key])
  {
    StepOnResident(lim, s, op, key);
  }

  // ---------------------------------------------------------------- one key while it stays resident

  /** What an operation does to one key's entry, `hit` telling whether it was admitted for that key. */
  ghost predicate KeyStep(was: Entry, op: Op, hit: bool, now: Entry) {
    if hit then was.lastSeq < op.seqNo == now.lastSeq && now.view == Apply(was.view, op.update) else now == was
  }

  /** The entries a key goes through, and which of the operations in between were admitted for it. */
  datatype History = History(entries: seq<Entry>, ops: seq<Op>, hits: seq<bool>)

  ghost predicate IsHistory(h: History) {
    && |h.entries| == |h.ops| + 1 == |h.hits| + 1
    && forall n :: 0 <= n < |h.ops| ==> HistoryStep(h, n)
  }

  ghost predicate HistoryStep(h: History, n: nat)
    requires |h.entries| == |h.ops| + 1 == |h.hits| + 1 && n < |h.ops|
  {
    KeyStep(h.entries[n], h.ops[n], h.hits[n], h.entries[n + 1])
  }

  /** The key is resident from point `i` to point `j`, and no operation in between expires it, not even to put it back. */
  ghost predicate StaysResident(lim: Limits, ops: seq<Op>, run: seq<Store>, key: StreamKey, i: nat, j: nat)
    requires i <= j <= |ops| < |run|
  {
    && (forall n :: i <= n <= j ==> key in run[n].entries)
    && (forall n :: i <= n < j ==> SurvivesExpiry(lim, run[n], ops[n].now, key))
  }

  ghost function HistoryOf(lim: Limits, ops: seq<Op>, run: seq<Store>, key: StreamKey, i: nat, j: nat): History
    requires i <= j <= |ops| < |run| && StaysResident(lim, ops, run, key, i, j)
  {
    History(seq(j - i + 1, n requires 0 <= n <= j - i => run[i + n].entries[key]), ops[i..j],
            seq(j - i, n requires 0 <= n < j - i => key == ops[i + n].key && AdmittedAt(lim, run[i + n], ops[i + n])))
  }

  lemma ResidentHistory(lim: Limits, ops: seq<Op>, run: seq<Store>, key: StreamKey, i: nat, j: nat)
    requires IsRun(lim, ops, run) && i <= j <= |ops| && StaysResident(lim, ops, run, key, i, j)
    ensures IsHistory(HistoryOf(lim, ops, run, key, i, j))
  {
    var h := HistoryOf(lim, ops, run, key, i, j);
    forall n | 0 <= n < j - i ensures HistoryStep(h, n) {
      ResidentStep(lim, ops, run, key, i + n);
    }
  }

  lemma ResidentStep(lim: Limits, ops: seq<Op>, run: seq<Store>, key: StreamKey, n: nat)
    requires IsRun(lim, ops, run) && n < |ops|
    requires key in run[n].entries && key in run[n + 1].entries && SurvivesExpiry(lim, run[n], ops[n].now, key)
    ensures KeyStep(run[n].entries[key], ops[n], key == ops[n].key && AdmittedAt(lim, run[n], ops[n]), run[n + 1].entries[key])
  {
    EveryRunWellFormed(lim, ops, run, n);
    assert StepAt(lim, ops, run, n);
    OperationOnResident(lim, run[n], ops[n], run[n + 1], key);
  }

  /** What a step of a history says about sequence numbers alone. */
  lemma SequenceStep(h: History, n: nat)
    requires IsHistory(h) && n < |h.ops|
    ensures if h.hits[n] then h.entries[n].lastSeq < h.ops[n].seqNo == h.entries[n + 1].lastSeq
            else h.entries[n + 1].lastSeq == h.entries[n].lastSeq
  {
    assert HistoryStep(h, n);
  }

  lemma {:induction false} LastSeqNeverFalls(h: History, a: nat, b: nat)
    requires IsHistory(h) && a <= b < |h.entries|
    ensures h.entries[a].lastSeq <= h.entries[b].lastSeq
    decreases b
  {
    if a < b {
      LastSeqNeverFalls(h, a, b - 1);
      SequenceStep(h, b - 1);
    }
  }

  lemma HitsIncrease(h: History, a: nat, b: nat)
    requires IsHistory(h) && a < b < |h.ops| && h.hits[a] && h.hits[b]
    ensures h.ops[a].seqNo < h.ops[b].seqNo
  {
    LastSeqNeverFalls(h, a + 1, b);
    SequenceStep(h, a);
    SequenceStep(h, b);
  }

  /** While a key stays resident, the sequence numbers of the operations admitted for it strictly increase. */
  lemma AdmittedSequenceIncreases(lim: Limits, ops: seq<Op>, run: seq<Store>, key: StreamKey, i: nat, j: nat, a: nat, b: nat)
    requires IsRun(lim, ops, run) && i <= a < b < j <= |ops| && StaysResident(lim, ops, run, key, i, j)
    requires ops[a].key == ops[b].key == key && AdmittedAt(lim, run[a], ops[a]) && AdmittedAt(lim, run[b], ops[b])
    ensures ops[a].seqNo < ops[b].seqNo
  {
    var h := HistoryOf(lim, ops, run, key, i, j);
    ResidentHistory(lim, ops, run, key, i, j);
    assert h.ops[a - i] == ops[a] && h.ops[b - i] == ops[b];
    HitsIncrease(h, a - i, b - i);
  }

  /** The updates admitted for the key, in order. */
  ghost function Admissions(h: History): seq<BookUpdate>
    requires |h.ops| == |h.hits|
    decreases |h.ops|
  {
    if h.ops == [] then []
    else
      var n := |h.ops| - 1;
      Admissions(History(h.entries, h.ops[..n], h.hits[..n])) + (if h.hits[n] then [h.ops[n].update] else [])
  }

  lemma ApplyAllSnoc(v: View, us: seq<BookUpdate>, u: BookUpdate)
    ensures ApplyAll(v, us + [u]) == Apply(ApplyAll(v, us), u)
  {
  }

  lemma HistoryPrefix(h: History, n: nat)
    requires IsHistory(h) && n <= |h.ops|
    ensures IsHistory(History(h.entries[..n + 1], h.ops[..n], h.hits[..n]))
  {
    var init := History(h.entries[..n + 1], h.ops[..n], h.hits[..n]);
    forall i | 0 <= i < n ensures HistoryStep(init, i) {
      assert HistoryStep(h, i);
    }
  }

  lemma {:induction false} BookFollowsAdmissions(h: History)
    requires IsHistory(h)
    ensures h.entries[|h.ops|].view == ApplyAll(h.entries[0].view, Admissions(h))
    decreases |h.ops|
  {
    if h.ops != [] {
      var n := |h.ops| - 1;
      var init := History(h.entries[..n + 1], h.ops[..n], h.hits[..n]);
      var shorter := History(h.entries, h.ops[..n], h.hits[..n]);
      assert HistoryStep(h, n);
      HistoryPrefix(h, n);
      BookFollowsAdmissions(init);
      AdmissionsIgnoreEntries(init, shorter);
      if h.hits[n] {
        ApplyAllSnoc(h.entries[0].view, Admissions(shorter), h.ops[n].update);
      } else {
        assert Admissions(shorter) + [] == Admissions(shorter);
      }
    }
  }

  lemma {:induction false} AdmissionsIgnoreEntries(g: History, h: History)
    requires g.ops == h.ops && g.hits == h.hits && |g.ops| == |g.hits|
    ensures Admissions(g) == Admissions(h)
    decreases |g.ops|
  {
    if g.ops != [] {
      var n := |g.ops| - 1;
      AdmissionsIgnoreEntries(History(g.entries, g.ops[..n], g.hits[..n]), History(h.entries, h.ops[..n], h.hits[..n]));
    }
  }

  /** While a key stays resident its book is what the updates admitted for it, and no others, make of the earlier book. */
  lemma BookFollowsAdmittedUpdates(lim: Limits, ops: seq<Op>, run: seq<Store>, key: StreamKey, i: nat, j: nat)
    requires IsRun(lim, ops, run) && i <= j <= |ops| && StaysResident(lim, ops, run, key, i, j)
    ensures run[j].entries[key].view ==
            ApplyAll(run[i].entries[key].view, Admissions(HistoryOf(lim, ops, run, key, i, j)))
  {
    var h := HistoryOf(lim, ops, run, key, i, j);
    ResidentHistory(lim, ops, run, key, i, j);
    BookFollowsAdmissions(h);
    assert h.entries[0] == run[i].entries[key] && h.entries[j - i] == run[j].entries[key];
  }

  // ---------------------------------------------------------------- an idle entry behind a busy one

  /** An empty snapshot, which every book accepts. */
  const BLANK := Snapshot([], [])

  lemma BlankIsAccepted()
    ensures Accepted(BLANK)
  {
  }

  lemma RunExtends(lim: Limits, ops: seq<Op>, run: seq<Store>, op: Op, s: Store)
    requires IsRun(lim, ops, run) && s == Step(lim, run[|ops|], op)
    ensures IsRun(lim, ops + [op], run + [s])
  {
    forall n | 0 <= n < |ops + [op]| ensures StepAt(lim, ops + [op], run + [s], n) {
      assert n < |ops| ==> StepAt(lim, ops, run, n);
    }
  }

  ghost predicate ClockHolds(ops: seq<Op>, now: int) {
    && (forall n :: 0 <= n < |ops| ==> ops[n].seqNo >= 1 && ops[n].now <= now)
    && (forall m, n :: 0 <= m < n < |ops| ==> ops[m].now <= ops[n].now)
  }

  /** `b` was seen once, at time zero; `a`, inserted before it, was seen just now. */
  ghost predicate Shields(s: Store, a: StreamKey, b: StreamKey, seqNo: int, now: int) {
    && s.order == [a, b] && s.entries.Keys == {a, b} && s.entries[a].lastSeq == seqNo && s.entries[a].lastSeen == now
    && s.entries[b].lastSeen == 0
  }

  /** The first snapshot of a stream, put into a store of at most one other stream that is fresh. */
  lemma Inserts(lim: Limits, s: Store, k: StreamKey, e: Entry)
    requires lim.maxEntries >= 2 && k !in s.entries && |s.entries| <= 1
    ensures Put(lim, s, k, e) == Store(s.entries[k := e], s.order + [k])
  {
    assert s.entries[k := e].Keys == s.entries.Keys + {k};
  }

  lemma InsertedBlank(lim: Limits, s: Store, k: StreamKey, e: Entry)
    requires lim.maxEntries >= 2 && k !in s.entries && |s.entries| <= 1 && EvictExpired(lim, s, 0) == s
    requires e == Entry(Apply(EMPTY_VIEW, BLANK), 1, 0)
    ensures Step(lim, s, Op(k, 1, BLANK, 0)) == Store(s.entries[k := e], s.order + [k])
  {
    BlankIsAccepted();
    Inserts(lim, s, k, e);
  }

  lemma TwoInserted(lim: Limits, a: StreamKey, b: StreamKey) returns (ops: seq<Op>, run: seq<Store>)
    requires lim.maxEntries >= 2 && lim.ttl > 0 && a != b
    ensures IsRun(lim, ops, run) && ClockHolds(ops, 0) && Shields(run[|ops|], a, b, 1, 0)
  {
    var opA, opB := Op(a, 1, BLANK, 0), Op(b, 1, BLANK, 0);
    var s0, e := Store(map[], []), Entry(Apply(EMPTY_VIEW, BLANK), 1, 0);
    var s1, s2 := Store(map[a := e], [a]), Store(map[a := e, b := e], [a, b]);
    assert s0.order + [a] == [a] && s1.order + [b] == [a, b];
    InsertedBlank(lim, s0, a, e);
    FreshFront(lim, s1, 0);
    InsertedBlank(lim, s1, b, e);
    assert IsRun(lim, [], [s0]);
    RunExtends(lim, [], [s0], opA, s1);
    RunExtends(lim, [] + [opA], [s0] + [s1], opB, s2);
    ops, run := [] + [opA] + [opB], [s0] + [s1] + [s2];
  }

  lemma Refreshed(lim: Limits, s: Store, a: StreamKey, b: StreamKey, seqNo: int, now: int)
    requires lim.maxEntries >= 2 && lim.ttl > 0 && a != b && Shields(s, a, b, seqNo, now)
    ensures Shields(Step(lim, s, Op(a, seqNo + 1, BLANK, now + lim.ttl)), a, b, seqNo + 1, now + lim.ttl)
  {
    BlankIsAccepted();
    FreshFront(lim, s, now + lim.ttl);
    var e := Entry(Apply(EMPTY_VIEW, BLANK), seqNo + 1, now + lim.ttl);
    assert s.entries[a := e].Keys == {a, b} && |{a, b}| == 2 && |s.entries[a := e]| == |s.entries[a := e].Keys|;
  }

  /**
   * So an entry that is fresh is never expired away, but one that should go can stay for any length of time behind an older
   * insertion that is kept busy. A run shows it, with positive sequence numbers and a clock that never runs back.
   */
  lemma {:induction false} ExpiredBehindFreshSurvives(lim: Limits, a: StreamKey, b: StreamKey, age: nat)
    returns (ops: seq<Op>, run: seq<Store>, now: int)
    requires lim.maxEntries >= 2 && lim.ttl > 0 && a != b
    ensures IsRun(lim, ops, run) && ClockHolds(ops, now) && Shields(run[|ops|], a, b, age + 1, now) && now >= age
    ensures age >= 1 ==> now >= lim.ttl
    ensures var s := run[|ops|];
            (age >= 2 ==> Expired(lim, s.entries[b], now)) && b in EvictExpired(lim, s, now).entries
  {
    if age == 0 {
      ops, run := TwoInserted(lim, a, b);
      now := 0;
    } else {
      ops, run, now := ExpiredBehindFreshSurvives(lim, a, b, age - 1);
      var op := Op(a, age + 1, BLANK, now + lim.ttl);
      var s := Step(lim, run[|ops|], op);
      Refreshed(lim, run[|ops|], a, b, age, now);
      RunExtends(lim, ops, run, op, s);
      ops, run, now := ops + [op], run + [s], now + lim.ttl;
    }
    FreshFront(lim, run[|ops|], now);
  }
}
