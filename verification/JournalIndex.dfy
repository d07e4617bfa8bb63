/** The pending-state index: three persistent maps that act as a cache over the
    append/acknowledge log. */
module JournalIndices {
  import opened Common
  import opened JournalKeys

  datatype JournalIndex = JournalIndex(
    ordered: map<Key, Record>,
    normalByPath: map<string, Key>,
    groupsByEndpoint: map<string, set<Key>>)

  const EMPTY := JournalIndex(map[], map[], map[])

  datatype Fault = Corrupt | UnknownSchema | RecoveryRequired | Limit | IncompleteCheckpoint

  // ------------------------------------------------------- agreement of maps

  predicate Member(g: map<string, set<Key>>, p: string, k: Key) {
    p in g && k in g[p]
  }

  predicate Grouped(idx: JournalIndex, p: string, k: Key) {
    Member(idx.groupsByEndpoint, p, k)
  }

  predicate Holds(idx: JournalIndex, r: Record) {
    r.Shaped() && KeyOf(r) in idx.ordered && idx.ordered[KeyOf(r)] == r
  }

  /** The three maps describe one set of rows. */
  ghost predicate Agree(idx: JournalIndex) {
    && (forall k | k in idx.ordered :: idx.ordered[k].Shaped() && KeyOf(idx.ordered[k]) == k)
    && (forall p | p in idx.normalByPath ::
          && idx.normalByPath[p] in idx.ordered
          && idx.ordered[idx.normalByPath[p]].Normal?
          && idx.ordered[idx.normalByPath[p]].entry.path == p)
    && (forall k | k in idx.ordered && idx.ordered[k].Normal? ::
          && idx.ordered[k].entry.path in idx.normalByPath
          && idx.normalByPath[idx.ordered[k].entry.path] == k)
    && (forall p | p in idx.groupsByEndpoint :: idx.groupsByEndpoint[p] != {})
    && (forall p, k :: Grouped(idx, p, k) <==>
          k in idx.ordered && idx.ordered[k].Rename? && idx.ordered[k].Awaits(p))
  }

  /** The two secondary maps carry no information of their own. */
  lemma AgreeDetermines(i: JournalIndex, j: JournalIndex)
    requires Agree(i) && Agree(j) && i.ordered == j.ordered
    ensures i == j
  {
    assert forall p | p in i.normalByPath :: p in j.normalByPath && i.normalByPath[p] == j.normalByPath[p];
    assert forall p | p in j.normalByPath :: p in i.normalByPath;
    assert i.normalByPath == j.normalByPath;
    forall p, k ensures Grouped(i, p, k) <==> Grouped(j, p, k) {}
    forall p | p in i.groupsByEndpoint
      ensures p in j.groupsByEndpoint && i.groupsByEndpoint[p] == j.groupsByEndpoint[p]
    {
      var k :| k in i.groupsByEndpoint[p];
      assert Grouped(i, p, k);
      assert Grouped(j, p, k);
      assert forall k :: k in i.groupsByEndpoint[p] <==> Grouped(i, p, k);
      assert forall k :: k in j.groupsByEndpoint[p] <==> Grouped(j, p, k);
    }
    forall p | p in j.groupsByEndpoint ensures p in i.groupsByEndpoint {
      var k :| k in j.groupsByEndpoint[p];
      assert Grouped(j, p, k);
      assert Grouped(i, p, k);
    }
    assert i.groupsByEndpoint == j.groupsByEndpoint;
  }

  /** `hasPath` answers from the secondary maps what a scan of every row would. */
  function HasPath(idx: JournalIndex, p: string): bool {
    p in idx.normalByPath || p in idx.groupsByEndpoint
  }

  lemma HasPathIsPending(idx: JournalIndex, p: string)
    requires Agree(idx)
    ensures HasPath(idx, p) <==> exists k :: k in idx.ordered && idx.ordered[k].Awaits(p)
  {
    if p in idx.normalByPath {
      assert idx.ordered[idx.normalByPath[p]].Awaits(p);
    } else if p in idx.groupsByEndpoint {
      var k :| k in idx.groupsByEndpoint[p];
      assert Grouped(idx, p, k);
      assert idx.ordered[k].Awaits(p);
    }
    if k :| k in idx.ordered && idx.ordered[k].Awaits(p) {
      if idx.ordered[k].Rename? { assert Grouped(idx, p, k); }
    }
  }

  // ---------------------------------------------------------------- updates

  function AddGroup(g: map<string, set<Key>>, p: string, k: Key): (r: map<string, set<Key>>)
    ensures forall q, j :: Member(r, q, j) <==> Member(g, q, j) || (q == p && j == k)
    ensures (forall q | q in g :: g[q] != {}) ==> forall q | q in r :: r[q] != {}
  {
    g[p := (if p in g then g[p] else {}) + {k}]
  }

  function InsertRecord(idx: JournalIndex, r: Record): JournalIndex
    requires r.Shaped()
  {
    var k := KeyOf(r);
    if r.Normal? then
      JournalIndex(idx.ordered[k := r], idx.normalByPath[r.entry.path := k], idx.groupsByEndpoint)
    else
      var one := if r.oldPending then AddGroup(idx.groupsByEndpoint, r.entry.oldPath.value, k)
                 else idx.groupsByEndpoint;
      var two := if r.newPending then AddGroup(one, r.entry.path, k) else one;
      JournalIndex(idx.ordered[k := r], idx.normalByPath, two)
  }

  /** Adding a row whose key is free keeps the maps in agreement. */
  lemma InsertAgrees(idx: JournalIndex, r: Record)
    requires Agree(idx) && r.Shaped() && KeyOf(r) !in idx.ordered
    requires r.Normal? ==> r.entry.path !in idx.normalByPath
    ensures Agree(InsertRecord(idx, r))
    ensures InsertRecord(idx, r).ordered == idx.ordered[KeyOf(r) := r]
  {
    var after, key := InsertRecord(idx, r), KeyOf(r);
    forall p, k
      ensures Grouped(after, p, k) <==>
              k in after.ordered && after.ordered[k].Rename? && after.ordered[k].Awaits(p)
    {
      assert Grouped(idx, p, k) <==> k in idx.ordered && idx.ordered[k].Rename? && idx.ordered[k].Awaits(p);
    }
  }

  /** The record a fresh row becomes. */
  function NewRecord(e: Entry): Record {
    if e.action.Renamed? then Rename(e, true, true) else Normal(e)
  }

  function Append(idx: JournalIndex, e: Entry): Result<JournalIndex, Fault>
    requires forall p | p in idx.normalByPath :: idx.normalByPath[p] in idx.ordered
  {
    if !ValidEntry(e) then Err(Corrupt)
    else
      var r := NewRecord(e);
      var k := KeyOf(r);
      if r.Rename? then
        if k in idx.ordered then
          if idx.ordered[k].entry != e then Err(Corrupt) else Ok(idx)
        else Ok(InsertRecord(idx, r))
      else if e.path in idx.normalByPath then
        var previousKey := idx.normalByPath[e.path];
        var previous := idx.ordered[previousKey].entry;
        if previous.id > e.id then Ok(idx)
        else if previous.id == e.id then
          if previous != e then Err(Corrupt) else Ok(idx)
        else Ok(InsertRecord(idx.(ordered := idx.ordered - {previousKey}), r))
      else Ok(InsertRecord(idx, r))
  }

  /** What appending does to the rows, whatever the secondary maps say. */
  lemma AppendAgrees(idx: JournalIndex, e: Entry)
    requires Agree(idx) && Append(idx, e).Ok?
    ensures Agree(Append(idx, e).value)
    ensures e.action.Renamed? || e.path !in idx.normalByPath ||
            idx.ordered[idx.normalByPath[e.path]].entry.id >= e.id ||
            Append(idx, e).value.ordered ==
              (idx.ordered - {idx.normalByPath[e.path]})[KeyOf(NewRecord(e)) := NewRecord(e)]
  {
    var r := NewRecord(e);
    var key := KeyOf(r);
    if r.Normal? && e.path in idx.normalByPath {
      var previousKey := idx.normalByPath[e.path];
      if idx.ordered[previousKey].entry.id < e.id {
        var bare := JournalIndex(idx.ordered - {previousKey}, idx.normalByPath - {e.path}, idx.groupsByEndpoint);
        DropNormalAgrees(idx, e.path);
        InsertAgrees(bare, r);
        assert InsertRecord(bare, r).normalByPath == idx.normalByPath[e.path := key];
        assert Append(idx, e).value == InsertRecord(bare, r);
      }
    } else if key !in idx.ordered {
      InsertAgrees(idx, r);
    }
  }

  // ------------------------------------------------------- acknowledgements

  /** What an acknowledgement of endpoint `p` leaves of one covered row. */
  function Settle(r: Record, p: string): Option<Record>
    requires r.Shaped()
  {
    if r.Normal? then
      if r.entry.path == p then None else Some(r)
    else
      var o, n := r.oldPending && r.entry.oldPath.value != p, r.newPending && r.entry.path != p;
      if o || n then Some(Rename(r.entry, o, n)) else None
  }

  /** The rows left when endpoint `p` is settled on the keys of `s`. */
  ghost function SettledRows(rows: map<Key, Record>, p: string, s: set<Key>): map<Key, Record>
    requires forall k | k in rows :: rows[k].Shaped()
  {
    map k | k in rows && (k in s ==> Settle(rows[k], p).Some?)
      :: if k in s then Settle(rows[k], p).value else rows[k]
  }

  function DropNormal(idx: JournalIndex, p: string): JournalIndex
    requires p in idx.normalByPath
  {
    JournalIndex(idx.ordered - {idx.normalByPath[p]}, idx.normalByPath - {p}, idx.groupsByEndpoint)
  }

  lemma DropNormalAgrees(idx: JournalIndex, p: string)
    requires Agree(idx) && p in idx.normalByPath
    ensures Agree(DropNormal(idx, p))
    ensures DropNormal(idx, p).ordered == SettledRows(idx.ordered, p, {idx.normalByPath[p]})
  {
    var after := DropNormal(idx, p);
    forall q, k
      ensures Grouped(after, q, k) <==>
              k in after.ordered && after.ordered[k].Rename? && after.ordered[k].Awaits(q)
    {
      assert Grouped(idx, q, k) <==> k in idx.ordered && idx.ordered[k].Rename? && idx.ordered[k].Awaits(q);
    }
  }

  function RemoveEndpoint(g: map<string, set<Key>>, p: string, k: Key): (r: map<string, set<Key>>)
    requires p in g
    ensures forall q, j :: Member(r, q, j) <==> Member(g, q, j) && !(q == p && j == k)
    ensures (forall q | q in g :: g[q] != {}) ==> forall q | q in r :: r[q] != {}
  {
    var remaining := g[p] - {k};
    if remaining != {} then g[p := remaining]
    else
      assert forall j | j in g[p] :: j == k by { assert forall j | j in g[p] && j != k :: j in remaining; }
      g - {p}
  }

  /** One iteration of the endpoint walk. */
  function DropEndpoint(idx: JournalIndex, p: string, k: Key): JournalIndex
    requires p in idx.groupsByEndpoint && k in idx.ordered && idx.ordered[k].Shaped()
  {
    var updated := Settle(idx.ordered[k], p);
    JournalIndex(if updated.Some? then idx.ordered[k := updated.value] else idx.ordered - {k},
                 idx.normalByPath, RemoveEndpoint(idx.groupsByEndpoint, p, k))
  }

  lemma DropEndpointAgrees(idx: JournalIndex, p: string, key: Key)
    requires Agree(idx) && Grouped(idx, p, key)
    ensures Agree(DropEndpoint(idx, p, key))
    ensures DropEndpoint(idx, p, key).ordered == SettledRows(idx.ordered, p, {key})
  {
    var after := DropEndpoint(idx, p, key);
    forall q, k
      ensures Grouped(after, q, k) <==>
              k in after.ordered && after.ordered[k].Rename? && after.ordered[k].Awaits(q)
    {
      assert Grouped(idx, q, k) <==> k in idx.ordered && idx.ordered[k].Rename? && idx.ordered[k].Awaits(q);
    }
  }

  lemma SettledRowsCompose(rows: map<Key, Record>, p: string, s: set<Key>, t: set<Key>)
    requires forall k | k in rows :: rows[k].Shaped()
    ensures forall k | k in SettledRows(rows, p, s) :: SettledRows(rows, p, s)[k].Shaped()
    ensures SettledRows(SettledRows(rows, p, s), p, t) == SettledRows(rows, p, s + t)
  {}

  predicate IsLeast(k: Key, s: set<Key>) {
    k in s && forall j | j in s :: j == k || KeyLess(k, j)
  }

  lemma {:induction false} LeastExists(s: set<Key>)
    requires s != {}
    ensures exists k :: IsLeast(k, s)
  {
    var k :| k in s;
    var rest := s - {k};
    if rest == {} {
      assert s == {k};
      assert IsLeast(k, s);
    } else {
      LeastExists(rest);
      var m :| IsLeast(m, rest);
      KeyTotal(k, m);
      if KeyLess(k, m) {
        forall j | j in s ensures j == k || KeyLess(k, j) {
          if j in rest && j != m { KeyTransitive(k, m, j); }
        }
        assert IsLeast(k, s);
      } else {
        assert IsLeast(m, s);
      }
    }
  }

  predicate ValidWatermark(p: string, throughId: int) {
    SafePath(p) && 0 < throughId < MAX_SAFE_INTEGER
  }

  /** The rows an acknowledgement covers. */
  ghost function Covered(idx: JournalIndex, throughId: int): set<Key> {
    set k | k in idx.ordered && k.id <= throughId
  }

  /** The declarative effect of `acknowledge`: every row of a covered generation
      loses endpoint `p`, no other row changes, and the maps stay in agreement. */
  ghost predicate IsAcknowledged(before: JournalIndex, p: string, throughId: int, after: JournalIndex)
    requires Agree(before)
  {
    Agree(after) && after.ordered == SettledRows(before.ordered, p, Covered(before, throughId))
  }

  /** The walk behind `acknowledge`. It visits the normal pointer of the path and
      then the captured endpoint tree in key order, and stops at the first
      generation beyond the watermark. */
  method Acknowledge(idx: JournalIndex, p: string, throughId: int) returns (r: Result<JournalIndex, Fault>)
    requires Agree(idx)
    ensures r.Ok? <==> ValidWatermark(p, throughId)
    ensures r.Ok? ==> IsAcknowledged(idx, p, throughId, r.value)
    ensures r.Err? ==> r.error == Corrupt
  {
    hide KeyLess;
    if !ValidWatermark(p, throughId) { return Err(Corrupt); }
    var current := idx;
    ghost var done: set<Key> := {};
    if p in idx.normalByPath && idx.ordered[idx.normalByPath[p]].entry.id <= throughId {
      DropNormalAgrees(idx, p);
      current := DropNormal(idx, p);
      done := {idx.normalByPath[p]};
    }
    if p !in idx.groupsByEndpoint {
      WalkCovers(idx, p, throughId, done);
      return Ok(current);
    }
    var remaining := idx.groupsByEndpoint[p];
    assert forall k | k in remaining :: Grouped(idx, p, k);
    while remaining != {}
      invariant remaining <= idx.groupsByEndpoint[p] && forall k | k in remaining :: k !in done
      invariant done <= Covered(idx, throughId)
      invariant Agree(current) && current.ordered == SettledRows(idx.ordered, p, done)
      invariant idx.groupsByEndpoint[p] - remaining <= done
      invariant p in idx.normalByPath && idx.normalByPath[p].id <= throughId ==> idx.normalByPath[p] in done
    {
      LeastExists(remaining);
      var key :| IsLeast(key, remaining);
      assert Grouped(idx, p, key);
      if idx.ordered[key].entry.id > throughId {
        KeyLessIds();
        assert forall k | k in remaining :: k.id > throughId;
        break;
      }
      assert Grouped(current, p, key);
      DropEndpointAgrees(current, p, key);
      SettledRowsCompose(idx.ordered, p, done, {key});
      current := DropEndpoint(current, p, key);
      done := done + {key};
      remaining := remaining - {key};
    }
    assert forall k | k in remaining :: k.id > throughId;
    WalkCovers(idx, p, throughId, done);
    return Ok(current);
  }

  /** Visiting the normal pointer and the covered group keys visits every covered
      row that still awaits `p`: the early exit loses nothing. */
  lemma WalkCovers(idx: JournalIndex, p: string, throughId: int, done: set<Key>)
    requires Agree(idx)
    requires done <= Covered(idx, throughId)
    requires p in idx.normalByPath && idx.normalByPath[p].id <= throughId ==> idx.normalByPath[p] in done
    requires forall k | Grouped(idx, p, k) && k.id <= throughId :: k in done
    ensures SettledRows(idx.ordered, p, done) == SettledRows(idx.ordered, p, Covered(idx, throughId))
  {
    forall k | k in idx.ordered && k in Covered(idx, throughId) && k !in done
      ensures Settle(idx.ordered[k], p) == Some(idx.ordered[k])
    {
      assert !Grouped(idx, p, k);
    }
  }

  // ----------------------------------------------------- meaning of the log

  type Acks = map<string, nat>

  function AckedThrough(a: Acks, p: string): nat {
    if p in a then a[p] else 0
  }

  function WithAck(a: Acks, p: string, throughId: nat): Acks {
    a[p := Max(AckedThrough(a, p), throughId)]
  }

  /** The rows a log of appended entries `es` and acknowledgements `a` leaves
      pending, said without any index. */
  ghost predicate Expected(r: Record, es: set<Entry>, a: Acks) {
    && r.Shaped()
    && r.entry in es
    && (match r
        case Normal(e) =>
          && e.id > AckedThrough(a, e.path)
          && forall f | f in es && !f.action.Renamed? && f.path == e.path :: f.id <= e.id
        case Rename(e, o, n) =>
          && o == (e.id > AckedThrough(a, e.oldPath.value))
          && n == (e.id > AckedThrough(a, e.path)))
  }

  ghost predicate Denotes(idx: JournalIndex, es: set<Entry>, a: Acks) {
    Agree(idx) && forall r: Record :: Holds(idx, r) <==> Expected(r, es, a)
  }

  /** At most one index has a given meaning. */
  lemma DenotesDetermines(i: JournalIndex, j: JournalIndex, es: set<Entry>, a: Acks)
    requires Denotes(i, es, a) && Denotes(j, es, a)
    ensures i == j
  {
    forall k | k in i.ordered ensures k in j.ordered && j.ordered[k] == i.ordered[k] {
      assert Holds(i, i.ordered[k]);
      assert Holds(j, i.ordered[k]);
    }
    forall k | k in j.ordered ensures k in i.ordered {
      assert Holds(j, j.ordered[k]);
      assert Holds(i, j.ordered[k]);
    }
    AgreeDetermines(i, j);
  }

  lemma EmptyAgrees()
    ensures Agree(EMPTY)
  {}

  lemma EmptyDenotes(a: Acks)
    ensures Denotes(EMPTY, {}, a)
  {}

  predicate NormalAt(e: Entry, p: string) {
    !e.action.Renamed? && e.path == p
  }

  lemma {:induction false} LatestExists(es: set<Entry>, e: Entry) returns (top: Entry)
    requires e in es && !e.action.Renamed?
    ensures top in es && NormalAt(top, e.path) && top.id >= e.id
    ensures forall f | f in es && NormalAt(f, e.path) :: f.id <= top.id
    decreases |es|
  {
    if f :| f in es && NormalAt(f, e.path) && f.id > e.id {
      assert |es - {e}| < |es|;
      top := LatestExists(es - {e}, f);
    } else {
      top := e;
    }
  }

  /** No acknowledgement so far covers an endpoint of `e`. */
  predicate Uncovered(e: Entry, a: Acks) {
    && e.id > AckedThrough(a, e.path)
    && (e.action.Renamed? && e.oldPath.Some? ==> e.id > AckedThrough(a, e.oldPath.value))
  }

  /** If the path has no normal pointer, every earlier normal row of it is acknowledged. */
  lemma NoPointerMeansAcknowledged(idx: JournalIndex, es: set<Entry>, a: Acks, e: Entry)
    requires Denotes(idx, es, a) && (forall f | f in es :: ValidEntry(f))
    requires e in es && !e.action.Renamed? && e.path !in idx.normalByPath
    ensures e.id <= AckedThrough(a, e.path)
  {
    var top := LatestExists(es, e);
    assert Holds(idx, Normal(top)) <==> Expected(Normal(top), es, a);
  }

  /** Appending an uncovered row adds exactly that row to the meaning. */
  lemma AppendDenotes(idx: JournalIndex, es: set<Entry>, a: Acks, e: Entry)
    requires Denotes(idx, es, a) && (forall f | f in es :: ValidEntry(f))
    requires Append(idx, e).Ok? && Uncovered(e, a)
    ensures Denotes(Append(idx, e).value, es + {e}, a)
  {
    var after := Append(idx, e).value;
    AppendAgrees(idx, e);
    if e.action.Renamed? {
      AppendRenameDenotes(idx, es, a, e);
    } else {
      AppendNormalDenotes(idx, es, a, e);
    }
  }

  lemma AppendRenameDenotes(idx: JournalIndex, es: set<Entry>, a: Acks, e: Entry)
    requires Denotes(idx, es, a) && Append(idx, e).Ok? && Uncovered(e, a) && e.action.Renamed?
    ensures forall r: Record :: Holds(Append(idx, e).value, r) <==> Expected(r, es + {e}, a)
  {
    var after, row := Append(idx, e).value, NewRecord(e);
    var key := KeyOf(row);
    if key in idx.ordered {
      assert Holds(idx, idx.ordered[key]);
    }
    forall r: Record ensures Holds(after, r) <==> Expected(r, es + {e}, a) {
      assert Holds(idx, r) <==> Expected(r, es, a);
    }
  }

  lemma AppendNormalDenotes(idx: JournalIndex, es: set<Entry>, a: Acks, e: Entry)
    requires Denotes(idx, es, a) && (forall f | f in es :: ValidEntry(f))
    requires Append(idx, e).Ok? && Uncovered(e, a) && !e.action.Renamed?
    ensures forall r: Record :: Holds(Append(idx, e).value, r) <==> Expected(r, es + {e}, a)
  {
    if e.path in idx.normalByPath {
      var previous := idx.ordered[idx.normalByPath[e.path]];
      assert Holds(idx, previous);
      assert Expected(previous, es, a);
      AppendOverPointer(idx, es, a, e, previous);
    } else {
      forall f | f in es && NormalAt(f, e.path) ensures f.id < e.id {
        NoPointerMeansAcknowledged(idx, es, a, f);
      }
      forall r: Record ensures Holds(Append(idx, e).value, r) <==> Expected(r, es + {e}, a) {
        assert Holds(idx, r) <==> Expected(r, es, a);
      }
    }
  }

  /** A newer normal row replaces its path's row, an older one changes nothing. */
  lemma AppendOverPointer(idx: JournalIndex, es: set<Entry>, a: Acks, e: Entry, previous: Record)
    requires Denotes(idx, es, a) && Append(idx, e).Ok? && Uncovered(e, a) && !e.action.Renamed?
    requires e.path in idx.normalByPath && previous == idx.ordered[idx.normalByPath[e.path]]
    requires Holds(idx, previous) && Expected(previous, es, a)
    ensures forall r: Record :: Holds(Append(idx, e).value, r) <==> Expected(r, es + {e}, a)
  {
    forall r: Record ensures Holds(Append(idx, e).value, r) <==> Expected(r, es + {e}, a) {
      assert Holds(idx, r) <==> Expected(r, es, a);
    }
  }

  /** Acknowledging adds exactly one watermark to the meaning. */
  lemma AcknowledgeDenotes(before: JournalIndex, es: set<Entry>, a: Acks,
                           p: string, throughId: nat, after: JournalIndex)
    requires Denotes(before, es, a) && IsAcknowledged(before, p, throughId, after)
    ensures Denotes(after, es, WithAck(a, p, throughId))
  {
    forall r: Record ensures Holds(after, r) <==> Expected(r, es, WithAck(a, p, throughId)) {
      if Holds(after, r) {
        var b := before.ordered[KeyOf(r)];
        assert Holds(before, b);
        SettledIsExpected(b, r, es, a, p, throughId);
      }
      if Expected(r, es, WithAck(a, p, throughId)) {
        var b := Before(r, a);
        assert Holds(before, b) <==> Expected(b, es, a);
        UnsettledWasExpected(b, r, es, a, p, throughId);
        assert KeyOf(b) == KeyOf(r);
      }
    }
  }

  /** The row as it stood before the watermark moved. */
  ghost function Before(r: Record, a: Acks): Record
    requires r.Shaped()
  {
    if r.Normal? then r
    else Rename(r.entry, r.entry.id > AckedThrough(a, r.entry.oldPath.value),
      r.entry.id > AckedThrough(a, r.entry.path))
  }

  lemma SettledIsExpected(b: Record, r: Record, es: set<Entry>, a: Acks, p: string, throughId: nat)
    requires Expected(b, es, a) && r.Shaped()
    requires if b.entry.id <= throughId then Settle(b, p) == Some(r) else b == r
    ensures Expected(r, es, WithAck(a, p, throughId))
  {}

  lemma UnsettledWasExpected(b: Record, r: Record, es: set<Entry>, a: Acks, p: string, throughId: nat)
    requires Expected(r, es, WithAck(a, p, throughId)) && b == Before(r, a)
    ensures Expected(b, es, a)
    ensures if b.entry.id <= throughId then Settle(b, p) == Some(r) else b == r
  {}
}
