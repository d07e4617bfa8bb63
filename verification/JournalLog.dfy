/** The journal's write-ahead log and snapshots: replay, what a log means, and
    which snapshots a loader accepts. */
module JournalLog {
  import opened Common
  import opened JournalKeys
  import opened JournalIndices

  datatype State = State(index: JournalIndex, nextId: nat)

  datatype Operation =
    | Append(entry: Entry)
    | Ack(path: string, throughId: nat)

  /** An atomic store: metadata, snapshot rows and the log written since. */
  datatype Store = Store(epoch: nat, nextId: nat, rows: seq<Record>, wal: seq<Operation>, segments: nat)

  /** What every published state satisfies. */
  ghost predicate Sound(st: State) {
    Agree(st.index) && 1 <= st.nextId <= MAX_SAFE_INTEGER && Bounded(st.index, st.nextId)
  }

  /** Every row is valid and older than the next generation. */
  ghost predicate Bounded(idx: JournalIndex, nextId: nat) {
    forall k | k in idx.ordered :: ValidEntry(idx.ordered[k].entry) && idx.ordered[k].entry.id < nextId
  }

  // ------------------------------------------------------------------ replay

  /** The one index that acknowledging leaves, built from the surviving rows. */
  ghost function Acked(idx: JournalIndex, p: string, throughId: nat): JournalIndex
    requires Agree(idx)
  {
    var rows := SettledRows(idx.ordered, p, Covered(idx, throughId));
    JournalIndex(rows,
                 map q | q in idx.normalByPath && idx.normalByPath[q] in rows :: idx.normalByPath[q],
                 map q | q in idx.groupsByEndpoint && StillAwaited(idx, rows, q) != {} :: StillAwaited(idx, rows, q))
  }

  ghost function StillAwaited(idx: JournalIndex, rows: map<Key, Record>, q: string): set<Key>
    requires q in idx.groupsByEndpoint
  {
    set k | k in idx.groupsByEndpoint[q] && k in rows && rows[k].Shaped() && rows[k].Rename? && rows[k].Awaits(q)
  }

  lemma AckedIsAcknowledged(idx: JournalIndex, p: string, throughId: nat)
    requires Agree(idx)
    ensures IsAcknowledged(idx, p, throughId, Acked(idx, p, throughId))
  {
    var r := Acked(idx, p, throughId);
    var rows := r.ordered;
    forall k | k in rows
      ensures rows[k].Shaped() && KeyOf(rows[k]) == k && (rows[k].Normal? ==> rows[k] == idx.ordered[k]) {}
    forall q, k ensures Grouped(r, q, k) <==> k in rows && rows[k].Rename? && rows[k].Awaits(q) {
      assert Grouped(idx, q, k) <==> k in idx.ordered && idx.ordered[k].Rename? && idx.ordered[k].Awaits(q);
      assert Grouped(r, q, k) <==> Grouped(idx, q, k) && k in StillAwaited(idx, rows, q);
    }
  }

  lemma AckedIsUnique(idx: JournalIndex, p: string, throughId: nat, r: JournalIndex)
    requires Agree(idx) && IsAcknowledged(idx, p, throughId, r)
    ensures r == Acked(idx, p, throughId)
  {
    AckedIsAcknowledged(idx, p, throughId);
    AgreeDetermines(r, Acked(idx, p, throughId));
  }

  /** `applyOperation`. */
  ghost function Apply(st: State, op: Operation): (r: Result<State, Fault>)
    requires Agree(st.index)
    ensures r.Ok? ==> Agree(r.value.index)
  {
    match op
    case Append(e) =>
      if !ValidEntry(e) || e.id != st.nextId then Err(Corrupt)
      else
        var next := JournalIndices.Append(st.index, e);
        if next.Err? then Err(next.error)
        else
          AppendAgrees(st.index, e);
          Ok(State(next.value, e.id + 1))
    case Ack(p, throughId) =>
      if !ValidWatermark(p, throughId) then Err(Corrupt)
      else
        AckedIsAcknowledged(st.index, p, throughId);
        Ok(State(Acked(st.index, p, throughId), Max(st.nextId, throughId + 1)))
  }

  ghost function Replay(st: State, ops: seq<Operation>): (r: Result<State, Fault>)
    requires Agree(st.index)
    ensures r.Ok? ==> Agree(r.value.index)
  {
    if ops == [] then Ok(st)
    else
      var before := Replay(st, ops[..|ops| - 1]);
      if before.Err? then before else Apply(before.value, ops[|ops| - 1])
  }

  lemma {:induction false} ReplaySplit(st: State, a: seq<Operation>, b: seq<Operation>)
    requires Agree(st.index) && Replay(st, a).Ok?
    ensures Replay(st, a + b) == Replay(Replay(st, a).value, b)
  {
    if b == [] {
      assert a + b == a;
    } else {
      assert (a + b)[..|a + b| - 1] == a + b[..|b| - 1];
      ReplaySplit(st, a, b[..|b| - 1]);
    }
  }

  lemma ReplayOne(st: State, ops: seq<Operation>, op: Operation)
    requires Agree(st.index)
    ensures Replay(st, ops + [op]) ==
            if Replay(st, ops).Err? then Replay(st, ops) else Apply(Replay(st, ops).value, op)
  {
    assert (ops + [op])[..|ops|] == ops;
  }

  // ------------------------------------------------------------- the meaning

  ghost function Entries(ops: seq<Operation>): set<Entry> {
    set op | op in ops && op.Append? :: op.entry
  }

  ghost function AcksOf(ops: seq<Operation>): Acks {
    if ops == [] then map[]
    else
      var before, op := AcksOf(ops[..|ops| - 1]), ops[|ops| - 1];
      if op.Append? then before else WithAck(before, op.path, op.throughId)
  }

  /** `st` is the state of a log with these entries and acknowledgements, all of
      them below the next generation. */
  ghost predicate Means(st: State, es: set<Entry>, a: Acks) {
    && Denotes(st.index, es, a)
    && (forall e | e in es :: ValidEntry(e) && e.id < st.nextId)
    && (forall p | p in a :: a[p] < st.nextId)
  }

  /** A fresh generation is never refused: it cannot contradict an older row. */
  lemma FreshAppendSucceeds(st: State, e: Entry)
    requires Sound(st) && ValidEntry(e) && e.id == st.nextId
    ensures JournalIndices.Append(st.index, e).Ok?
    ensures Apply(st, Append(e)).Ok?
  {}

  lemma ApplyIsSound(st: State, op: Operation)
    requires Sound(st) && Apply(st, op).Ok?
    ensures Sound(Apply(st, op).value)
    ensures Apply(st, op).value.nextId >= st.nextId
  {
    hide Agree, JournalIndices.Append, Acked;
    if op.Append? {
      AppendKeepsRows(st.index, op.entry);
    } else {
      AckedIsAcknowledged(st.index, op.path, op.throughId);
    }
  }

  /** Appending keeps old rows or drops them; the only new row is the appended one. */
  lemma AppendKeepsRows(idx: JournalIndex, e: Entry)
    requires Agree(idx) && JournalIndices.Append(idx, e).Ok?
    ensures var after := JournalIndices.Append(idx, e).value;
            forall k | k in after.ordered ::
              after.ordered[k].entry == e || (k in idx.ordered && after.ordered[k] == idx.ordered[k])
  {}

  lemma ApplyMeans(st: State, op: Operation, es: set<Entry>, a: Acks)
    requires Means(st, es, a) && Apply(st, op).Ok?
    ensures Means(Apply(st, op).value,
                  if op.Append? then es + {op.entry} else es,
                  if op.Ack? then WithAck(a, op.path, op.throughId) else a)
  {
    match op
    case Append(e) =>
      assert Uncovered(e, a);
      AppendDenotes(st.index, es, a, e);
    case Ack(p, throughId) =>
      AckedIsAcknowledged(st.index, p, throughId);
      AcknowledgeDenotes(st.index, es, a, p, throughId, Acked(st.index, p, throughId));
  }

  /** An empty journal whose next generation is `n`. */
  ghost function Blank(n: nat): (st: State)
    ensures Agree(st.index)
  {
    State(EMPTY, n)
  }

  /** For every accepted run, the three maps agree and hold exactly the pending
      rows of the log: a path's latest normal row iff it exceeds that path's
      greatest acknowledgement, a rename endpoint iff it exceeds its own. */
  lemma {:induction false} RunMeansLog(n: nat, ops: seq<Operation>)
    requires 1 <= n <= MAX_SAFE_INTEGER && Replay(Blank(n), ops).Ok?
    ensures Means(Replay(Blank(n), ops).value, Entries(ops), AcksOf(ops))
    ensures Sound(Replay(Blank(n), ops).value)
  {
    hide Agree, Apply;
    if ops == [] {
      EmptyDenotes(map[]);
    } else {
      var before, op := ops[..|ops| - 1], ops[|ops| - 1];
      RunMeansLog(n, before);
      var st := Replay(Blank(n), before).value;
      ApplyMeans(st, op, Entries(before), AcksOf(before));
      ApplyIsSound(st, op);
      assert ops == before + [op];
      assert Entries(ops) == if op.Append? then Entries(before) + {op.entry} else Entries(before);
    }
  }

  /** Generations never repeat and are never covered by an earlier watermark. */
  lemma {:induction false} GenerationsIncrease(n: nat, ops: seq<Operation>, i: nat, j: nat)
    requires 1 <= n <= MAX_SAFE_INTEGER && Replay(Blank(n), ops).Ok?
    requires i < j < |ops| && ops[j].Append?
    ensures ops[i].Append? ==> ops[i].entry.id < ops[j].entry.id
    ensures ops[i].Ack? ==> ops[i].throughId < ops[j].entry.id
  {
    var before := ops[..|ops| - 1];
    if j < |ops| - 1 {
      GenerationsIncrease(n, before, i, j);
    } else {
      RunMeansLog(n, before);
      assert ops[i] in before && before[i] == ops[i];
      if ops[i].Ack? { AckRecorded(before, i); }
    }
  }

  lemma {:induction false} AckRecorded(ops: seq<Operation>, i: nat)
    requires i < |ops| && ops[i].Ack?
    ensures ops[i].path in AcksOf(ops) && ops[i].throughId <= AcksOf(ops)[ops[i].path]
  {
    if i < |ops| - 1 {
      assert ops[..|ops| - 1][i] == ops[i];
      AckRecorded(ops[..|ops| - 1], i);
    }
  }

  // --------------------------------------------------------------- snapshots

  /** `rows` lists the index's rows, each once, in key order. */
  ghost predicate IsSnapshot(rows: seq<Record>, idx: JournalIndex) {
    && (forall i | 0 <= i < |rows| :: Holds(idx, rows[i]))
    && (forall i, j | 0 <= i < j < |rows| :: KeyLess(KeyOf(rows[i]), KeyOf(rows[j])))
    && (forall k | k in idx.ordered :: idx.ordered[k] in rows)
  }

  /** `records()`: in-order iteration of the persistent tree. */
  method Records(idx: JournalIndex) returns (rows: seq<Record>)
    requires Agree(idx)
    ensures IsSnapshot(rows, idx)
  {
    hide KeyLess;
    rows := [];
    var remaining := idx.ordered.Keys;
    while remaining != {}
      invariant remaining <= idx.ordered.Keys
      invariant forall i | 0 <= i < |rows| :: Holds(idx, rows[i])
      invariant forall i, j | 0 <= i < j < |rows| :: KeyLess(KeyOf(rows[i]), KeyOf(rows[j]))
      invariant forall i, k | 0 <= i < |rows| && k in remaining :: KeyLess(KeyOf(rows[i]), k)
      invariant forall k | k in idx.ordered && k !in remaining :: idx.ordered[k] in rows
    {
      LeastExists(remaining);
      var key :| IsLeast(key, remaining);
      rows := rows + [idx.ordered[key]];
      remaining := remaining - {key};
    }
  }

  /** `addSnapshotRecord`. */
  function AddSnapshotRecord(idx: JournalIndex, r: Record): Result<JournalIndex, Fault> {
    if !r.Shaped() then Err(Corrupt)
    else if KeyOf(r) in idx.ordered || (r.Normal? && r.entry.path in idx.normalByPath) then Err(Corrupt)
    else Ok(InsertRecord(idx, r))
  }

  /** Validation of one snapshot row against the metadata and its predecessor. */
  predicate RowAccepted(rows: seq<Record>, i: nat, nextId: nat)
    requires i < |rows|
  {
    && ValidEntry(rows[i].entry) && rows[i].entry.id < nextId && rows[i].Shaped()
    && (i > 0 ==> rows[i - 1].Shaped() && KeyLess(KeyOf(rows[i - 1]), KeyOf(rows[i])))
  }

  ghost function LoadRows(rows: seq<Record>, nextId: nat): Result<JournalIndex, Fault> {
    if rows == [] then Ok(EMPTY)
    else
      var n := |rows| - 1;
      var before := LoadRows(rows[..n], nextId);
      if before.Err? then before
      else if !RowAccepted(rows, n, nextId) then Err(Corrupt)
      else AddSnapshotRecord(before.value, rows[n])
  }

  ghost function Load(store: Store): (r: Result<State, Fault>) {
    if store.nextId < 1 || store.nextId > MAX_SAFE_INTEGER then Err(Corrupt)
    else
      var index := LoadRows(store.rows, store.nextId);
      if index.Err? then Err(index.error)
      else
        LoadedIsSnapshot(store.rows, store.nextId);
        Replay(State(index.value, store.nextId), store.wal)
  }

  /** Every accepted snapshot is the listing of the index it loads. */
  lemma {:induction false} LoadedIsSnapshot(rows: seq<Record>, nextId: nat)
    requires LoadRows(rows, nextId).Ok?
    ensures Agree(LoadRows(rows, nextId).value)
    ensures Bounded(LoadRows(rows, nextId).value, nextId)
    ensures IsSnapshot(rows, LoadRows(rows, nextId).value)
  {
    hide Agree, KeyLess, InsertRecord, ValidEntry, IsSnapshot;
    EmptyAgrees();
    EmptyIsSnapshot();
    if rows != [] {
      var n := |rows| - 1;
      LoadedIsSnapshot(rows[..n], nextId);
      SnapshotGrows(rows[..n], LoadRows(rows[..n], nextId).value, rows[n]);
      assert rows == rows[..n] + [rows[n]];
      assert n > 0 ==> rows[..n][n - 1] == rows[n - 1];
    }
  }

  lemma EmptyIsSnapshot()
    ensures IsSnapshot([], EMPTY)
  {
  }

  lemma SnapshotGrows(rows: seq<Record>, idx: JournalIndex, r: Record)
    requires Agree(idx) && IsSnapshot(rows, idx)
    requires r.Shaped() && KeyOf(r) !in idx.ordered && (r.Normal? ==> r.entry.path !in idx.normalByPath)
    requires rows != [] ==> rows[|rows| - 1].Shaped() && KeyLess(KeyOf(rows[|rows| - 1]), KeyOf(r))
    ensures Agree(InsertRecord(idx, r))
    ensures InsertRecord(idx, r).ordered == idx.ordered[KeyOf(r) := r]
    ensures IsSnapshot(rows + [r], InsertRecord(idx, r))
  {
    hide Agree, InsertRecord, KeyLess;
    InsertAgrees(idx, r);
    var after, all := InsertRecord(idx, r), rows + [r];
    forall i | 0 <= i < |all| ensures Holds(after, all[i]) {
      if i < |rows| { assert Holds(idx, rows[i]); }
    }
    forall i | 0 <= i < |rows| ensures KeyLess(KeyOf(rows[i]), KeyOf(r)) {
      assert Holds(idx, rows[i]);
      if i < |rows| - 1 { KeyTransitive(KeyOf(rows[i]), KeyOf(rows[|rows| - 1]), KeyOf(r)); }
    }
    forall k | k in after.ordered ensures after.ordered[k] in all {
      assert r in all;
      if k != KeyOf(r) { assert idx.ordered[k] in rows; }
    }
  }

  /** The part of an index its first `n` listed rows make up. */
  ghost predicate IsPart(part: JournalIndex, rows: seq<Record>, n: nat)
    requires n <= |rows|
  {
    && Agree(part)
    && (forall i | 0 <= i < n :: Holds(part, rows[i]))
    && (forall k | k in part.ordered :: part.ordered[k] in rows[..n])
  }

  lemma {:induction false} SnapshotLoads(rows: seq<Record>, idx: JournalIndex, n: nat, nextId: nat)
    requires Agree(idx) && IsSnapshot(rows, idx) && n <= |rows| && Bounded(idx, nextId)
    ensures LoadRows(rows[..n], nextId).Ok?
    ensures IsPart(LoadRows(rows[..n], nextId).value, rows, n)
  {
    hide Agree, KeyLess, InsertRecord, ValidEntry;
    EmptyAgrees();
    if n > 0 {
      SnapshotLoads(rows, idx, n - 1, nextId);
      var before, r := LoadRows(rows[..n - 1], nextId).value, rows[n - 1];
      assert Holds(idx, r);
      assert rows[..n][..n - 1] == rows[..n - 1];
      assert RowAccepted(rows[..n], n - 1, nextId) by {
        if n > 1 { assert Holds(idx, rows[n - 2]); }
      }
      PartGrows(rows, idx, n - 1, before);
    }
  }

  lemma PartGrows(rows: seq<Record>, idx: JournalIndex, n: nat, before: JournalIndex)
    requires Agree(idx) && IsSnapshot(rows, idx) && n < |rows| && IsPart(before, rows, n)
    ensures Holds(idx, rows[n]) && AddSnapshotRecord(before, rows[n]).Ok?
    ensures IsPart(AddSnapshotRecord(before, rows[n]).value, rows, n + 1)
  {
    hide KeyLess;
    var r := rows[n];
    assert Holds(idx, r);
    forall k | k in before.ordered
      ensures KeyLess(k, KeyOf(r)) && k in idx.ordered && idx.ordered[k] == before.ordered[k] {
      var i :| 0 <= i < n && rows[i] == before.ordered[k];
      assert Holds(idx, rows[i]);
    }
    KeyTotal(KeyOf(r), KeyOf(r));
    InsertAgrees(before, r);
    PartWithOne(rows, n, before);
  }

  lemma PartWithOne(rows: seq<Record>, n: nat, before: JournalIndex)
    requires n < |rows| && IsPart(before, rows, n) && rows[n].Shaped() && KeyOf(rows[n]) !in before.ordered
    requires var after := InsertRecord(before, rows[n]);
      Agree(after) && after.ordered == before.ordered[KeyOf(rows[n]) := rows[n]]
    ensures IsPart(InsertRecord(before, rows[n]), rows, n + 1)
  {
    hide Agree, InsertRecord;
    var r, after := rows[n], InsertRecord(before, rows[n]);
    forall i | 0 <= i < n + 1 ensures Holds(after, rows[i]) {
      if i < n { assert Holds(before, rows[i]); }
    }
    forall k | k in after.ordered ensures after.ordered[k] in rows[..n + 1] {
      if k != KeyOf(r) { assert before.ordered[k] in rows[..n]; }
      else { assert rows[..n + 1][n] == r; }
    }
  }

  /** The loader accepts exactly the listings of sound indexes, and each rebuilds
      the very index it was taken from. */
  lemma SnapshotRoundTrip(rows: seq<Record>, idx: JournalIndex, nextId: nat)
    requires Agree(idx)
    ensures LoadRows(rows, nextId) == Ok(idx) <==> IsSnapshot(rows, idx) && Bounded(idx, nextId)
  {
    if LoadRows(rows, nextId) == Ok(idx) {
      LoadedIsSnapshot(rows, nextId);
    }
    if IsSnapshot(rows, idx) && Bounded(idx, nextId) {
      SnapshotLoads(rows, idx, |rows|, nextId);
      assert rows[..|rows|] == rows;
      PartIsWhole(rows, idx, LoadRows(rows, nextId).value);
    }
  }

  lemma PartIsWhole(rows: seq<Record>, idx: JournalIndex, part: JournalIndex)
    requires Agree(idx) && IsSnapshot(rows, idx) && IsPart(part, rows, |rows|)
    ensures part == idx
  {
    forall k | k in idx.ordered ensures k in part.ordered && part.ordered[k] == idx.ordered[k] {
      var i :| 0 <= i < |rows| && rows[i] == idx.ordered[k];
      assert Holds(part, rows[i]);
    }
    forall k | k in part.ordered ensures k in idx.ordered {
      var i :| 0 <= i < |rows| && rows[i] == part.ordered[k];
      assert Holds(idx, rows[i]);
    }
    AgreeDetermines(part, idx);
  }

  /** A loaded store is sound. */
  lemma LoadIsSound(store: Store)
    requires Load(store).Ok?
    ensures Sound(Load(store).value)
  {
    LoadedIsSnapshot(store.rows, store.nextId);
    ReplayIsSound(State(LoadRows(store.rows, store.nextId).value, store.nextId), store.wal);
  }

  lemma {:induction false} ReplayIsSound(st: State, ops: seq<Operation>)
    requires Sound(st) && Replay(st, ops).Ok?
    ensures Sound(Replay(st, ops).value)
    ensures Replay(st, ops).value.nextId >= st.nextId
  {
    if ops != [] {
      ReplayIsSound(st, ops[..|ops| - 1]);
      ApplyIsSound(Replay(st, ops[..|ops| - 1]).value, ops[|ops| - 1]);
    }
  }

  /** The loader itself: metadata, then snapshot rows in order, then the log. */
  method LoadStore(store: Store) returns (r: Result<State, Fault>)
    ensures r == Load(store)
  {
    hide Apply, Agree, LoadRows;
    if store.nextId < 1 || store.nextId > MAX_SAFE_INTEGER { return Err(Corrupt); }
    var index := LoadSnapshot(store.rows, store.nextId);
    if index.Err? { return Err(index.error); }
    LoadedIsSnapshot(store.rows, store.nextId);
    ghost var start := State(index.value, store.nextId);
    var state := State(index.value, store.nextId);
    for i := 0 to |store.wal|
      invariant Agree(state.index) && Replay(start, store.wal[..i]) == Ok(state)
    {
      assert store.wal[..i + 1] == store.wal[..i] + [store.wal[i]];
      ReplayOne(start, store.wal[..i], store.wal[i]);
      var next := ApplyOperation(state, store.wal[i]);
      if next.Err? {
        ReplayFails(start, store.wal, i + 1);
        return Err(next.error);
      }
      state := next.value;
    }
    assert store.wal[..|store.wal|] == store.wal;
    return Ok(state);
  }

  method LoadSnapshot(rows: seq<Record>, nextId: nat) returns (r: Result<JournalIndex, Fault>)
    ensures r == LoadRows(rows, nextId)
  {
    hide InsertRecord, KeyLess, ValidEntry;
    var index := EMPTY;
    for i := 0 to |rows|
      invariant LoadRows(rows[..i], nextId) == Ok(index)
    {
      assert rows[..i + 1][..i] == rows[..i];
      assert RowAccepted(rows[..i + 1], i, nextId) <==> RowAccepted(rows, i, nextId);
      var next := AddSnapshotRecord(index, rows[i]);
      if !RowAccepted(rows, i, nextId) || next.Err? {
        LoadRowsFails(rows, i + 1, nextId);
        return Err(Corrupt);
      }
      index := next.value;
    }
    assert rows[..|rows|] == rows;
    return Ok(index);
  }

  lemma {:induction false} LoadRowsFails(rows: seq<Record>, n: nat, nextId: nat)
    requires n <= |rows| && LoadRows(rows[..n], nextId) == Err(Corrupt)
    ensures LoadRows(rows, nextId) == Err(Corrupt)
  {
    if n < |rows| {
      assert rows[..|rows| - 1][..n] == rows[..n];
      LoadRowsFails(rows[..|rows| - 1], n, nextId);
    } else {
      assert rows[..n] == rows;
    }
  }

  lemma {:induction false} ReplayFails(st: State, ops: seq<Operation>, n: nat)
    requires Agree(st.index) && n <= |ops| && Replay(st, ops[..n]).Err?
    ensures Replay(st, ops) == Replay(st, ops[..n])
  {
    if n < |ops| {
      assert ops[..|ops| - 1][..n] == ops[..n];
      ReplayFails(st, ops[..|ops| - 1], n);
    } else {
      assert ops[..n] == ops;
    }
  }

  method ApplyOperation(st: State, op: Operation) returns (r: Result<State, Fault>)
    requires Agree(st.index)
    ensures r == Apply(st, op)
  {
    match op
    case Append(e) =>
      if !ValidEntry(e) || e.id != st.nextId { return Err(Corrupt); }
      var next := JournalIndices.Append(st.index, e);
      if next.Err? { return Err(next.error); }
      return Ok(State(next.value, e.id + 1));
    case Ack(p, throughId) =>
      var next := Acknowledge(st.index, p, throughId);
      if next.Err? { return Err(Corrupt); }
      AckedIsUnique(st.index, p, throughId, next.value);
      return Ok(State(next.value, Max(st.nextId, throughId + 1)));
  }
}
