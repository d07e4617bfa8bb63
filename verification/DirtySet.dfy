/** The dirty path set: two indexes over one set of entries, transactions that
    detach and restore entries, and retirement guarded by object identity. */
module DirtySets {
  import opened Common
  import Lex

  const CLAIM_LIMIT := 256
  const RETIREMENT_LIMIT := 256

  datatype FileAction = Created | Modified | Deleted

  /** The scalar hint about a file, without its path and watermark. */
  datatype FileState = FileState(action: FileAction, hash: Option<string>, mtime: Option<int>, size: Option<int>)

  datatype Change = Change(path: string, journalId: Option<int>, state: FileState)

  predicate Durable(id: Option<int>) {
    id.Some? && 0 < id.value < MAX_SAFE_INTEGER
  }

  /** `Math.max(a ?? 0, b ?? 0) || undefined`. */
  function Watermark(a: Option<int>, b: Option<int>): Option<int> {
    var m := Max(a.GetOr(0), b.GetOr(0));
    if m == 0 then None else Some(m)
  }

  // ------------------------------------------------------- what callers see

  /** One path's state: the hint, its watermark and its own generation. */
  datatype Held = Held(change: Change, own: Option<int>)

  type View = map<string, Held>

  datatype Addition = Addition(path: string, state: FileState, journalId: Option<int>)

  function Added(v: View, a: Addition): View {
    var inherited := if a.path in v then v[a.path].change.journalId else None;
    v[a.path := Held(Change(a.path, Watermark(inherited, a.journalId), a.state),
                     if Durable(a.journalId) then a.journalId else None)]
  }

  function AddedAll(v: View, additions: seq<Addition>): View {
    if additions == [] then v else Added(AddedAll(v, additions[..|additions| - 1]), additions[|additions| - 1])
  }

  /** A newer entry keeps its hint and provenance and only inherits the watermark. */
  function Restored(v: View, h: Held): View {
    var p := h.change.path;
    if p !in v then v[p := h]
    else
      var j := Watermark(v[p].change.journalId, h.change.journalId);
      v[p := Held(v[p].change.(journalId := j), v[p].own)]
  }

  function RestoredAll(v: View, hs: seq<Held>): View {
    if hs == [] then v else Restored(RestoredAll(v, hs[..|hs| - 1]), hs[|hs| - 1])
  }

  /** An own generation is durable and never exceeds the watermark. */
  predicate Marked(h: Held) {
    h.own.Some? ==> Durable(h.own) && h.change.journalId.Some? && h.own.value <= h.change.journalId.value
  }

  predicate NonNegative(id: Option<int>) {
    id.Some? ==> id.value >= 0
  }

  ghost predicate Lists(v: View, hs: seq<Held>) {
    && (forall i | 0 <= i < |hs| :: hs[i].change.path in v && v[hs[i].change.path] == hs[i])
    && (forall i, j | 0 <= i < j < |hs| :: hs[i].change.path != hs[j].change.path)
  }

  function Paths(hs: seq<Held>): set<string> {
    set i | 0 <= i < |hs| :: hs[i].change.path
  }

  /** Adds lose a detached watermark if it is negative and every add of its path has
      a negative id too. */
  predicate Lossless(h: Held, additions: seq<Addition>) {
    || NonNegative(h.change.journalId) || !Touched(additions, h.change.path)
    || exists a | a in additions :: a.path == h.change.path && NonNegative(a.journalId)
  }

  predicate AllLossless(hs: seq<Held>, additions: seq<Addition>) {
    forall i | 0 <= i < |hs| :: Lossless(hs[i], additions)
  }

  /** Detaching entries, then adding anything, then restoring the detached entries
      equals the adds alone (state, watermark and provenance) exactly when the adds
      lose none of the detached watermarks. */
  lemma DetachAddRestoreExactly(v: View, hs: seq<Held>, additions: seq<Addition>)
    requires Lists(v, hs)
    ensures RestoredAll(AddedAll(v - Paths(hs), additions), hs) == AddedAll(v, additions) <==>
      AllLossless(hs, additions)
  {
    hide AddedAll, RestoredAll, Lossless;
    var w, x := AddedAll(v - Paths(hs), additions), AddedAll(v, additions);
    var r := RestoredAll(w, hs);
    forall i | 0 <= i < |hs|
      ensures var p := hs[i].change.path; p in r && p in x && (r[p] == x[p] <==> Lossless(hs[i], additions))
    {
      assert hs[i].change.path in Paths(hs);
      RestoredAt(w, hs, i);
      AddsAtPath(v, v - Paths(hs), hs[i], additions);
    }
    forall p | p !in Paths(hs)
      ensures (p in r <==> p in x) && (p in r ==> r[p] == x[p])
    {
      RestoredElsewhere(w, hs, p);
      AddsAgree(v, v - Paths(hs), p, additions);
    }
    if AllLossless(hs, additions) {
      forall p
        ensures (p in r <==> p in x) && (p in r ==> r[p] == x[p])
      {
        if p in Paths(hs) { var i :| 0 <= i < |hs| && hs[i].change.path == p; }
      }
    }
  }

  /** In particular for every selection without a negative watermark. */
  lemma DetachAddRestore(v: View, hs: seq<Held>, additions: seq<Addition>)
    requires Lists(v, hs) && forall i | 0 <= i < |hs| :: NonNegative(hs[i].change.journalId)
    ensures RestoredAll(AddedAll(v - Paths(hs), additions), hs) == AddedAll(v, additions)
  {
    hide AddedAll, RestoredAll, Lists;
    DetachAddRestoreExactly(v, hs, additions);
  }

  /** Over all additions the law is exactly as wide as that. */
  lemma DetachAddRestoreIff(v: View, hs: seq<Held>)
    requires Lists(v, hs)
    ensures (forall i | 0 <= i < |hs| :: NonNegative(hs[i].change.journalId)) <==>
            forall additions: seq<Addition> ::
              RestoredAll(AddedAll(v - Paths(hs), additions), hs) == AddedAll(v, additions)
  {
    if forall i | 0 <= i < |hs| :: NonNegative(hs[i].change.journalId) {
      forall additions: seq<Addition>
        ensures RestoredAll(AddedAll(v - Paths(hs), additions), hs) == AddedAll(v, additions)
      {
        DetachAddRestore(v, hs, additions);
      }
    } else {
      var i :| 0 <= i < |hs| && !NonNegative(hs[i].change.journalId);
      NegativeIsLost(v, hs, i);
    }
  }

  /** An add of the same path with watermark -1 tells them apart. */
  lemma NegativeIsLost(v: View, hs: seq<Held>, i: nat)
    requires Lists(v, hs) && i < |hs| && !NonNegative(hs[i].change.journalId)
    ensures var additions := [Addition(hs[i].change.path, hs[i].change.state, Some(-1))];
      RestoredAll(AddedAll(v - Paths(hs), additions), hs) != AddedAll(v, additions)
  {
    hide AddedAll, RestoredAll, Lists;
    var a := Addition(hs[i].change.path, hs[i].change.state, Some(-1));
    assert a in [a];
    assert !Lossless(hs[i], [a]);
    DetachAddRestoreExactly(v, hs, [a]);
  }

  /** A path is restored by its own row alone. */
  lemma {:induction false} RestoredAt(v: View, hs: seq<Held>, i: nat)
    requires i < |hs| && forall j, k | 0 <= j < k < |hs| :: hs[j].change.path != hs[k].change.path
    ensures var p := hs[i].change.path; p in RestoredAll(v, hs) && RestoredAll(v, hs)[p] == Restored(v, hs[i])[p]
  {
    var n := |hs| - 1;
    if i < n {
      RestoredAt(v, hs[..n], i);
    } else {
      RestoredElsewhere(v, hs[..n], hs[n].change.path);
    }
  }

  lemma {:induction false} RestoredElsewhere(v: View, hs: seq<Held>, p: string)
    requires forall j | 0 <= j < |hs| :: hs[j].change.path != p
    ensures p in RestoredAll(v, hs) <==> p in v
    ensures p in v ==> RestoredAll(v, hs)[p] == v[p]
  {
    if hs != [] { RestoredElsewhere(v, hs[..|hs| - 1], p); }
  }

  // Watermarks that are not negative stay so.

  ghost predicate Sane(v: View) {
    forall p | p in v :: NonNegative(v[p].change.journalId)
  }

  lemma {:induction false} AddedAllIsSane(v: View, additions: seq<Addition>)
    requires Sane(v)
    ensures Sane(AddedAll(v, additions))
  {
    if additions != [] { AddedAllIsSane(v, additions[..|additions| - 1]); }
  }

  lemma {:induction false} RestoredAllIsSane(v: View, hs: seq<Held>)
    requires Sane(v) && forall i | 0 <= i < |hs| :: NonNegative(hs[i].change.journalId)
    ensures Sane(RestoredAll(v, hs))
  {
    if hs != [] { RestoredAllIsSane(v, hs[..|hs| - 1]); }
  }

  lemma RestoredOne(v: View, h: Held)
    ensures RestoredAll(v, [h]) == Restored(v, h)
  {
    assert [h][..0] == [];
    assert RestoredAll(v, []) == v;
  }

  /** Views that agree at a path agree there after any adds. */
  lemma {:induction false} AddsAgree(v: View, u: View, p: string, additions: seq<Addition>)
    requires (p in v <==> p in u) && (p in v ==> v[p] == u[p])
    ensures var x, w := AddedAll(v, additions), AddedAll(u, additions);
      (p in x <==> p in w) && (p in x ==> x[p] == w[p])
  {
    if additions != [] { AddsAgree(v, u, p, additions[..|additions| - 1]); }
  }

  /** What adds make of a path that is there and of one that is not. */
  predicate Parallel(h: Held, x: Held, w: Held, negative: bool) {
    && x.change.path == w.change.path && x.change.state == w.change.state && x.own == w.own
    && (NonNegative(h.change.journalId) ==> x.change.journalId == Watermark(w.change.journalId, h.change.journalId))
    && (!NonNegative(h.change.journalId) && negative ==> w.change.journalId.None? && x.change.journalId.Some?)
    && (!NonNegative(h.change.journalId) && negative ==> x.change.journalId.value < 0)
    && (!NonNegative(h.change.journalId) && !negative ==> x.change.journalId == w.change.journalId)
    && (w.change.journalId.Some? ==> w.change.journalId.value > 0)
  }

  predicate OnlyNegative(additions: seq<Addition>, p: string) {
    forall a | a in additions && a.path == p :: !NonNegative(a.journalId)
  }

  lemma AddedParallel(h: Held, x: Held, w: Held, negative: bool, a: Addition)
    requires Parallel(h, x, w, negative) && a.path == x.change.path
    ensures Parallel(h,
                     Held(Change(a.path, Watermark(x.change.journalId, a.journalId), a.state),
                          if Durable(a.journalId) then a.journalId else None),
                     Held(Change(a.path, Watermark(w.change.journalId, a.journalId), a.state),
                          if Durable(a.journalId) then a.journalId else None),
                     negative && !NonNegative(a.journalId))
  {}

  lemma AddedFirst(h: Held, a: Addition)
    requires a.path == h.change.path
    ensures Parallel(h,
                     Held(Change(a.path, Watermark(h.change.journalId, a.journalId), a.state),
                          if Durable(a.journalId) then a.journalId else None),
                     Held(Change(a.path, Watermark(None, a.journalId), a.state),
                          if Durable(a.journalId) then a.journalId else None),
                     !NonNegative(a.journalId))
  {}

  lemma {:induction false} AddsInParallel(v: View, u: View, h: Held, additions: seq<Addition>)
    requires h.change.path in v && v[h.change.path] == h && h.change.path !in u
    ensures var p := h.change.path;
      var x, w := AddedAll(v, additions), AddedAll(u, additions);
      && p in x && (p in w <==> Touched(additions, p)) && (p !in w ==> x[p] == h)
      && (p in w ==> x[p].change.path == p && Parallel(h, x[p], w[p], OnlyNegative(additions, p)))
  {
    hide Parallel, NonNegative, Watermark, Durable;
    if additions != [] {
      var n := |additions| - 1;
      var before, a, p := additions[..n], additions[n], h.change.path;
      assert additions == before + [a];
      AddsInParallel(v, u, h, before);
      var x, w := AddedAll(v, before), AddedAll(u, before);
      if a.path == p {
        if p in w { AddedParallel(h, x[p], w[p], OnlyNegative(before, p), a); } else { AddedFirst(h, a); }
        assert OnlyNegative(additions, p) <==> OnlyNegative(before, p) && !NonNegative(a.journalId);
        assert !Touched(before, p) ==> OnlyNegative(before, p);
      } else {
        assert OnlyNegative(additions, p) <==> OnlyNegative(before, p);
        assert Touched(additions, p) <==> Touched(before, p);
      }
    }
  }

  lemma AddsAtPath(v: View, u: View, h: Held, additions: seq<Addition>)
    requires h.change.path in v && v[h.change.path] == h && h.change.path !in u
    ensures var p := h.change.path;
      var x, r := AddedAll(v, additions), Restored(AddedAll(u, additions), h);
      p in x && p in r && (r[p] == x[p] <==> Lossless(h, additions))
  {
    hide AddedAll;
    AddsInParallel(v, u, h, additions);
  }

  // ------------------------------------------------------------- the objects

  /** An immutable record; what matters beside its fields is its identity. */
  class DirtyEntry {
    const change: Change
    const own: Option<int>

    constructor (change: Change, own: Option<int>)
      ensures this.change == change && this.own == own
    {
      this.change, this.own := change, own;
    }
  }

  function HeldOf(e: DirtyEntry): Held {
    Held(e.change, e.own)
  }

  /** A detached row in the caller's hands; the caller may overwrite it. */
  class Row {
    var change: Change

    constructor (change: Change)
      ensures this.change == change
    {
      this.change := change;
    }
  }

  class Capture {
    constructor () {}
  }

  class RetirementToken {
    constructor () {}
  }

  datatype Slot = Slot(entry: DirtyEntry, order: nat)

  datatype Cut = Cut(path: string, throughId: int)

  datatype Candidate = Candidate(path: string, entry: DirtyEntry, throughId: int)

  datatype Retirement = Retirement(token: RetirementToken, candidates: seq<Candidate>)

  /** Both the own generation and the inherited watermark lie within the cut. */
  predicate Within(e: DirtyEntry, throughId: int) {
    && e.own.Some? && e.own.value <= throughId
    && Durable(e.change.journalId) && e.change.journalId.value <= throughId
  }

  /** Some journal cut covers the entry completely. */
  ghost predicate WithinSome(e: DirtyEntry) {
    exists throughId :: Within(e, throughId)
  }

  /** The result of a claim: a range error, a stale selection, or the rows. */
  datatype Claimed = RangeError | Stale | Rows(rows: seq<Row>)

  function PathLess(a: string, b: string): bool {
    Lex.Less(Lex.Codes(a), Lex.Codes(b))
  }

  /** The path index and the insertion-order index are in exact bijection. */
  ghost predicate Bijective(changes: map<string, Slot>, ordered: map<nat, DirtyEntry>, nextOrder: nat) {
    && (forall p | p in changes ::
          && changes[p].entry.change.path == p
          && changes[p].order in ordered && ordered[changes[p].order] == changes[p].entry
          && changes[p].order < nextOrder)
    && (forall o | o in ordered ::
          ordered[o].change.path in changes && changes[ordered[o].change.path].order == o)
  }

  /** The paths are listed from the oldest insertion to the newest. */
  ghost predicate InOrder(changes: map<string, Slot>, paths: seq<string>) {
    forall i, j | 0 <= i < j < |paths| ::
      paths[i] in changes && paths[j] in changes && changes[paths[i]].order < changes[paths[j]].order
  }

  function ViewOf(changes: map<string, Slot>): View {
    map p | p in changes :: HeldOf(changes[p].entry)
  }

  lemma ViewWithout(changes: map<string, Slot>, gone: set<string>)
    ensures ViewOf(changes - gone) == ViewOf(changes) - gone
  {}

  lemma ViewWithoutAll(changes: map<string, Slot>)
    ensures ViewOf(map[]) == ViewOf(changes) - changes.Keys
  {}

  lemma ViewWith(changes: map<string, Slot>, p: string, slot: Slot)
    ensures ViewOf(changes[p := slot]) == ViewOf(changes)[p := HeldOf(slot.entry)]
  {}

  ghost predicate EntriesMarked(changes: map<string, Slot>) {
    forall p | p in changes :: Marked(HeldOf(changes[p].entry))
  }

  ghost predicate RowsMarked(snapshots: map<Row, DirtyEntry>) {
    forall r | r in snapshots :: Marked(HeldOf(snapshots[r]))
  }

  ghost predicate AllWithin(candidates: seq<Candidate>) {
    forall c | c in candidates :: Within(c.entry, c.throughId) && c.entry.change.path == c.path
  }

  ghost function OrdersOf(changes: map<string, Slot>, gone: set<string>): set<nat>
    requires gone <= changes.Keys
  {
    set p | p in gone :: changes[p].order
  }

  /** Removing the same entries from both indexes keeps the bijection. */
  lemma RemovalKeepsBijection(changes: map<string, Slot>, ordered: map<nat, DirtyEntry>, nextOrder: nat,
                              gone: set<string>)
    requires Bijective(changes, ordered, nextOrder) && gone <= changes.Keys
    ensures Bijective(changes - gone, ordered - OrdersOf(changes, gone), nextOrder)
    ensures gone == changes.Keys ==> Bijective(changes - gone, ordered - OrdersOf(changes, gone), 0)
    ensures EntriesMarked(changes) ==> EntriesMarked(changes - gone)
  {
    var orders := OrdersOf(changes, gone);
    forall p | p in changes ensures changes[p].order in orders <==> p in gone {}
    forall o | o in ordered ensures o in orders <==> ordered[o].change.path in gone {}
  }

  function Size(changes: map<string, Slot>): nat {
    |changes|
  }

  lemma DropMore(changes: map<string, Slot>, gone: set<string>, p: string)
    ensures changes - (gone + {p}) == (changes - gone) - {p} && changes - (gone + {}) == changes - gone
    ensures p !in changes - gone ==> changes - (gone + {p}) == changes - gone
    ensures p in changes - gone ==> (changes - gone)[p] == changes[p]
  {
    assert gone + {} == gone;
  }

  lemma NothingIsBijective()
    ensures Bijective(map[], map[], 0) && EntriesMarked(map[])
  {}

  /** One entry leaves both indexes. */
  lemma RemoveOne(changes: map<string, Slot>, ordered: map<nat, DirtyEntry>, nextOrder: nat, p: string)
    requires Bijective(changes, ordered, nextOrder) && p in changes
    ensures Bijective(changes - {p}, ordered - {changes[p].order}, nextOrder)
    ensures EntriesMarked(changes) ==> EntriesMarked(changes - {p})
    ensures Size(changes - {p}) == Size(changes) - 1
  {
    RemovalKeepsBijection(changes, ordered, nextOrder, {p});
    assert OrdersOf(changes, {p}) == {changes[p].order};
    assert changes.Keys == (changes - {p}).Keys + {p};
  }

  lemma EmptyRestarts(changes: map<string, Slot>, ordered: map<nat, DirtyEntry>, nextOrder: nat)
    requires Bijective(changes, ordered, nextOrder) && changes == map[]
    ensures Bijective(changes, ordered, 0)
  {}

  lemma InsertKeepsBijection(changes: map<string, Slot>, ordered: map<nat, DirtyEntry>, nextOrder: nat,
                             entry: DirtyEntry)
    requires Bijective(changes, ordered, nextOrder)
    ensures var p := entry.change.path;
            if p in changes
            then Bijective(changes[p := Slot(entry, changes[p].order)], ordered[changes[p].order := entry], nextOrder)
            else Bijective(changes[p := Slot(entry, nextOrder)], ordered[nextOrder := entry], nextOrder + 1)
  {}

  /** One more path leaves both indexes. */
  lemma Shrinks(changes: map<string, Slot>, ordered: map<nat, DirtyEntry>, paths: seq<string>, n: nat)
    requires n < |paths| && forall p | p in paths :: p in changes
    ensures SetOf(paths[..n + 1]) == SetOf(paths[..n]) + {paths[n]} && SetOf(paths[..n + 1]) <= changes.Keys
    ensures changes - SetOf(paths[..n + 1]) == changes - SetOf(paths[..n]) - {paths[n]}
    ensures ordered - OrdersOf(changes, SetOf(paths[..n + 1])) ==
            ordered - OrdersOf(changes, SetOf(paths[..n])) - {changes[paths[n]].order}
  {
    assert paths[..n + 1] == paths[..n] + [paths[n]];
    var fewer, more := SetOf(paths[..n]), SetOf(paths[..n + 1]);
    assert more == fewer + {paths[n]};
    forall o ensures o in OrdersOf(changes, more) <==> o in OrdersOf(changes, fewer) || o == changes[paths[n]].order {
      if o == changes[paths[n]].order { assert paths[n] in more; }
      if o in OrdersOf(changes, fewer) {
        var p :| p in fewer && changes[p].order == o;
        assert p in more;
      }
    }
  }

  /** The paths inserted before `order`, oldest first. */
  ghost predicate Listed(changes: map<string, Slot>, ordered: map<nat, DirtyEntry>, paths: seq<string>, order: nat) {
    && (forall p | p in paths :: p in changes && changes[p].order < order)
    && (forall o | o in ordered && o < order :: ordered[o].change.path in paths)
    && InOrder(changes, paths)
  }

  lemma NothingListed(changes: map<string, Slot>, ordered: map<nat, DirtyEntry>)
    ensures Listed(changes, ordered, [], 0)
  {}

  lemma ListedMore(changes: map<string, Slot>, ordered: map<nat, DirtyEntry>, nextOrder: nat, paths: seq<string>,
                   order: nat)
    requires Bijective(changes, ordered, nextOrder) && Listed(changes, ordered, paths, order)
    ensures Listed(changes, ordered,
      if order in ordered then paths + [ordered[order].change.path] else paths, order + 1)
  {
    if order in ordered {
      var p := ordered[order].change.path;
      assert p in changes && changes[p].order == order;
      LaterIsInOrder(changes, paths, p);
    }
  }

  lemma LaterIsInOrder(changes: map<string, Slot>, paths: seq<string>, p: string)
    requires InOrder(changes, paths) && p in changes &&
      forall q | q in paths :: q in changes && changes[q].order < changes[p].order
    ensures InOrder(changes, paths + [p])
  {
    var more := paths + [p];
    forall i, j | 0 <= i < j < |more|
      ensures more[i] in changes && more[j] in changes && changes[more[i]].order < changes[more[j]].order
    {
      assert more[i] in paths;
    }
  }

  lemma AllListed(changes: map<string, Slot>, ordered: map<nat, DirtyEntry>, nextOrder: nat, paths: seq<string>)
    requires Bijective(changes, ordered, nextOrder) && Listed(changes, ordered, paths, nextOrder)
    ensures SetOf(paths) == changes.Keys && forall p | p in paths :: p in changes
    ensures InOrder(changes, paths) && Distinct(paths)
  {
    forall p | p in changes
      ensures p in paths
    {
      assert ordered[changes[p].order].change.path == p;
    }
  }

  class DirtyPathSet {
    var changes: map<string, Slot>
    var ordered: map<nat, DirtyEntry>
    var nextOrder: nat
    var captures: map<Capture, map<string, Slot>>
    var snapshots: map<Row, DirtyEntry>
    var retirement: Option<Retirement>

    ghost predicate Valid()
      reads this
    {
      && Bijective(changes, ordered, nextOrder)
      && EntriesMarked(changes)
      && RowsMarked(snapshots)
      && (retirement.Some? ==> AllWithin(retirement.value.candidates))
    }

    ghost function View(): View
      reads this
    {
      ViewOf(changes)
    }

    constructor ()
      ensures Valid() && changes == map[] && nextOrder == 0 && snapshots == map[] && captures == map[] &&
        retirement == None
    {
      changes, ordered, nextOrder := map[], map[], 0;
      captures, snapshots, retirement := map[], map[], None;
    }

    /** `setEntry`: an existing path keeps its place in the order. */
    method SetEntry(p: string, entry: DirtyEntry) returns (ok: bool)
      requires Valid() && entry.change.path == p && Marked(HeldOf(entry))
      modifies this`changes, this`ordered, this`nextOrder
      ensures Valid()
      ensures ok <==> p in old(changes) || old(nextOrder) < MAX_SAFE_INTEGER
      ensures !ok ==> unchanged(this)
      ensures ok ==>
        changes == old(changes)[p := Slot(entry, if p in old(changes) then old(changes)[p].order else old(nextOrder))]
      ensures ok ==> View() == old(View())[p := HeldOf(entry)]
      ensures old(nextOrder) <= nextOrder <= old(nextOrder) + 1
    {
      InsertKeepsBijection(changes, ordered, nextOrder, entry);
      ViewWith(changes, p, Slot(entry, if p in changes then changes[p].order else nextOrder));
      hide Bijective, RowsMarked, AllWithin, ViewOf;
      if p !in changes && nextOrder >= MAX_SAFE_INTEGER { return false; }
      var order := if p in changes then changes[p].order else nextOrder;
      if p !in changes { nextOrder := nextOrder + 1; }
      changes := changes[p := Slot(entry, order)];
      ordered := ordered[order := entry];
      return true;
    }

    /** `add`: the final hint wins, the watermark only grows. */
    method Add(a: Addition) returns (ok: bool)
      requires Valid()
      modifies this`changes, this`ordered, this`nextOrder
      ensures Valid()
      ensures ok <==> a.path in old(changes) || old(nextOrder) < MAX_SAFE_INTEGER
      ensures !ok ==> unchanged(this)
      ensures ok ==> View() == Added(old(View()), a)
      ensures nextOrder <= old(nextOrder) + 1
      ensures ok ==> a.path in changes && fresh(changes[a.path].entry)
      ensures ok ==>
        forall p | p != a.path ::
        (p in changes <==> p in old(changes)) && (p in changes ==> changes[p] == old(changes)[p])
      ensures ok && a.path in old(changes) ==> changes[a.path].order == old(changes)[a.path].order
    {
      var inherited := if a.path in changes then changes[a.path].entry.change.journalId else None;
      var entry := new DirtyEntry(Change(a.path, Watermark(inherited, a.journalId), a.state),
                                  if Durable(a.journalId) then a.journalId else None);
      ok := SetEntry(a.path, entry);
    }

    /** `restoreEntry`. */
    method RestoreEntry(entry: DirtyEntry) returns (ok: bool)
      requires Valid() && Marked(HeldOf(entry))
      modifies this`changes, this`ordered, this`nextOrder
      ensures Valid()
      ensures ok <==> entry.change.path in old(changes) || old(nextOrder) < MAX_SAFE_INTEGER
      ensures !ok ==> unchanged(this)
      ensures ok ==> View() == Restored(old(View()), HeldOf(entry))
      ensures nextOrder <= old(nextOrder) + 1
      ensures ok ==> entry.change.path in changes
      ensures ok && entry.change.path !in old(changes) ==> changes[entry.change.path].entry == entry
      ensures ok ==>
        forall p | p != entry.change.path ::
        (p in changes <==> p in old(changes)) && (p in changes ==> changes[p] == old(changes)[p])
      ensures ok && entry.change.path in old(changes) ==>
              changes[entry.change.path].entry == old(changes)[entry.change.path].entry ||
                fresh(changes[entry.change.path].entry)
    {
      var p := entry.change.path;
      if p !in changes {
        ok := SetEntry(p, entry);
        return;
      }
      var newer := changes[p].entry;
      var journalId := Watermark(newer.change.journalId, entry.change.journalId);
      if journalId != newer.change.journalId {
        var merged := new DirtyEntry(newer.change.(journalId := journalId), newer.own);
        ok := SetEntry(p, merged);
      } else {
        assert newer.change.(journalId := journalId) == newer.change;
        return true;
      }
    }

    /** `detach`: a fresh row that remembers where it came from. */
    method Detach(entry: DirtyEntry) returns (row: Row)
      requires Valid() && Marked(HeldOf(entry))
      modifies this`snapshots
      ensures Valid() && fresh(row) && row.change == entry.change
      ensures snapshots == old(snapshots)[row := entry]
    {
      row := new Row(entry.change);
      snapshots := snapshots[row := entry];
    }

    method MakeCapture() returns (c: Capture)
      requires Valid()
      modifies this`captures
      ensures Valid() && fresh(c) && captures == old(captures)[c := changes]
    {
      c := new Capture();
      captures := captures[c := changes];
    }

    /** Every selected entry is still the captured object. */
    ghost predicate Current(captured: map<string, Slot>, paths: seq<string>)
      reads this
    {
      forall i | 0 <= i < |paths| ::
        paths[i] in captured && paths[i] in changes && captured[paths[i]].entry == changes[paths[i]].entry
    }

    /** The candidate indexes without the selection. */
    static method Without(changes: map<string, Slot>, ordered: map<nat, DirtyEntry>, paths: seq<string>)
      returns (left: map<string, Slot>, order: map<nat, DirtyEntry>)
      requires forall p | p in paths :: p in changes
      ensures left == changes - SetOf(paths) && SetOf(paths) <= changes.Keys
      ensures order == ordered - OrdersOf(changes, SetOf(paths))
    {
      left, order := changes, ordered;
      for n := 0 to |paths|
        invariant SetOf(paths[..n]) <= changes.Keys
        invariant left == changes - SetOf(paths[..n]) && order == ordered - OrdersOf(changes, SetOf(paths[..n]))
      {
        assert paths[n] in paths;
        Shrinks(changes, ordered, paths, n);
        left, order := left - {paths[n]}, order - {changes[paths[n]].order};
      }
      assert paths[..|paths|] == paths;
    }

    method DetachRows(paths: seq<string>) returns (rows: seq<Row>)
      requires Valid() && forall p | p in paths :: p in changes
      modifies this`snapshots
      ensures Valid() && Detached(rows, paths, changes)
      ensures old(snapshots.Keys) <= snapshots.Keys &&
        forall r | r in old(snapshots) :: snapshots[r] == old(snapshots)[r]
    {
      hide Bijective;
      rows := [];
      for n := 0 to |paths|
        invariant Valid() && Detached(rows, paths[..n], changes)
        invariant old(snapshots.Keys) <= snapshots.Keys &&
          forall r | r in old(snapshots) :: snapshots[r] == old(snapshots)[r]
      {
        assert paths[n] in paths;
        var row := Detach(changes[paths[n]].entry);
        rows := rows + [row];
      }
      assert paths[..|paths|] == paths;
    }

    /** `detachClaimedEntries`: both indexes lose exactly the selection, and the
        rows carry the entries' hints in selection order. */
    method DetachClaimed(paths: seq<string>) returns (rows: seq<Row>)
      requires Valid() && forall p | p in paths :: p in changes
      modifies this`changes, this`ordered, this`nextOrder, this`snapshots
      ensures Valid()
      ensures changes == old(changes) - SetOf(paths)
      ensures Detached(rows, paths, old(changes))
      ensures old(snapshots.Keys) <= snapshots.Keys &&
        forall r | r in old(snapshots) :: snapshots[r] == old(snapshots)[r]
      ensures nextOrder <= old(nextOrder)
    {
      hide Bijective, EntriesMarked, RowsMarked, AllWithin, SetOf, OrdersOf;
      rows := DetachRows(paths);
      Publish(paths);
    }

    /** Both indexes without the selection, published at once. */
    method Publish(paths: seq<string>)
      requires Valid() && forall p | p in paths :: p in changes
      modifies this`changes, this`ordered, this`nextOrder
      ensures Valid() && changes == old(changes) - SetOf(paths) && nextOrder <= old(nextOrder)
    {
      hide Bijective, EntriesMarked, RowsMarked, AllWithin, SetOf, OrdersOf;
      var left, order := Without(changes, ordered, paths);
      RemovalKeepsBijection(changes, ordered, nextOrder, SetOf(paths));
      changes, ordered := left, order;
      if changes == map[] {
        EmptyRestarts(changes, ordered, nextOrder);
        nextOrder := 0;
      }
    }

    /** The rows are fresh copies of these paths' entries and trace back to them. */
    twostate predicate Detached(new rows: seq<Row>, paths: seq<string>, source: map<string, Slot>)
      reads this, rows
    {
      && |rows| == |paths|
      && (forall i | 0 <= i < |rows| ::
            && paths[i] in source
            && fresh(rows[i]) && rows[i].change == source[paths[i]].entry.change
            && rows[i] in snapshots && snapshots[rows[i]] == source[paths[i]].entry)
    }

    /** `claim`: all of the selection or nothing of it. */
    method Claim(capture: Capture, paths: seq<string>) returns (r: Claimed)
      requires Valid()
      modifies this`changes, this`ordered, this`nextOrder, this`snapshots
      ensures Valid()
      ensures r.RangeError? <==> |paths| > CLAIM_LIMIT || !Distinct(paths) || exists p | p in paths :: !SafePath(p)
      ensures r.Rows? <==> |paths| <= CLAIM_LIMIT && Distinct(paths) && (forall p | p in paths :: SafePath(p)) &&
                           capture in captures && old(Current(captures[capture], paths))
      ensures !r.Rows? ==> unchanged(this)
      ensures r.Rows? ==> changes == old(changes) - SetOf(paths) && Detached(r.rows, paths, old(changes))
      ensures r.Rows? ==> View() == old(View()) - SetOf(paths) && nextOrder <= old(nextOrder)
    {
      if |paths| > CLAIM_LIMIT { return RangeError; }
      for n := 0 to |paths|
        modifies {}
        invariant Distinct(paths[..n]) && forall p | p in paths[..n] :: SafePath(p)
      {
        if !SafePath(paths[n]) || paths[n] in paths[..n] {
          assert paths[n] in paths;
          return RangeError;
        }
        assert paths[..n + 1] == paths[..n] + [paths[n]];
      }
      assert paths[..|paths|] == paths;
      if capture !in captures { return Stale; }
      var captured := captures[capture];
      for n := 0 to |paths|
        modifies {}
        invariant forall i | 0 <= i < n ::
          paths[i] in captured && paths[i] in changes && captured[paths[i]].entry == changes[paths[i]].entry
      {
        var p := paths[n];
        if p !in captured || p !in changes || captured[p].entry != changes[p].entry { return Stale; }
      }
      ViewWithout(changes, SetOf(paths));
      var rows := DetachClaimed(paths);
      return Rows(rows);
    }

    /** Each hint is an unmodified row this set issued for its current entry. */
    ghost predicate Genuine(hints: seq<Row>)
      reads this, hints
    {
      forall i | 0 <= i < |hints| ::
        && hints[i] in snapshots && snapshots[hints[i]].change == hints[i].change
        && hints[i].change.path in changes && changes[hints[i].change.path].entry == snapshots[hints[i]]
    }

    /** `claimHints`: selection by the very rows this set handed out. */
    method ClaimHints(hints: seq<Row>) returns (r: Claimed)
      requires Valid()
      modifies this`changes, this`ordered, this`nextOrder, this`snapshots
      ensures Valid()
      ensures r.RangeError? <==>
        |hints| > CLAIM_LIMIT || !Distinct(PathsOf(hints)) || exists h | h in hints :: !SafePath(h.change.path)
      ensures r.Rows? <==>
        |hints| <= CLAIM_LIMIT && Distinct(PathsOf(hints)) && (forall h | h in hints :: SafePath(h.change.path)) &&
                           old(Genuine(hints))
      ensures !r.Rows? ==> unchanged(this)
      ensures r.Rows? ==>
        changes == old(changes) - SetOf(PathsOf(hints)) && Detached(r.rows, PathsOf(hints), old(changes))
      ensures r.Rows? ==> View() == old(View()) - SetOf(PathsOf(hints)) && nextOrder <= old(nextOrder)
    {
      var paths := PathsOf(hints);
      if |hints| > CLAIM_LIMIT { return RangeError; }
      for n := 0 to |hints|
        modifies {}
        invariant Distinct(paths[..n]) && forall i | 0 <= i < n :: SafePath(hints[i].change.path)
      {
        if !SafePath(paths[n]) || paths[n] in paths[..n] {
          assert hints[n] in hints;
          return RangeError;
        }
        assert paths[..n + 1] == paths[..n] + [paths[n]];
      }
      assert paths[..|paths|] == paths;
      for n := 0 to |hints|
        modifies {}
        invariant forall i | 0 <= i < n ::
          && hints[i] in snapshots && snapshots[hints[i]].change == hints[i].change
          && hints[i].change.path in changes && changes[hints[i].change.path].entry == snapshots[hints[i]]
      {
        var h := hints[n];
        if h !in snapshots || snapshots[h].change != h.change || h.change.path !in changes ||
           changes[h.change.path].entry != snapshots[h] {
          return Stale;
        }
      }
      ViewWithout(changes, SetOf(paths));
      var rows := DetachClaimed(paths);
      return Rows(rows);
    }

    /** The paths in insertion order. */
    method OrderedPaths() returns (paths: seq<string>)
      requires Valid()
      ensures SetOf(paths) == changes.Keys && forall p | p in paths :: p in changes
      ensures InOrder(changes, paths) && Distinct(paths)
    {
      hide Bijective, Listed, SetOf, InOrder, Distinct;
      paths := [];
      var order := 0;
      NothingListed(changes, ordered);
      while order < nextOrder
        invariant order <= nextOrder && Listed(changes, ordered, paths, order)
      {
        ListedMore(changes, ordered, nextOrder, paths, order);
        if order in ordered { paths := paths + [ordered[order].change.path]; }
        order := order + 1;
      }
      AllListed(changes, ordered, nextOrder, paths);
    }

    /** `iterate`: a row for each path, in insertion order. */
    method Iterate() returns (rows: seq<Row>, ghost paths: seq<string>)
      requires Valid()
      modifies this`snapshots
      ensures Valid() && Detached(rows, paths, changes)
      ensures SetOf(paths) == changes.Keys && InOrder(changes, paths) && Distinct(paths)
      ensures old(snapshots.Keys) <= snapshots.Keys &&
        forall r | r in old(snapshots) :: snapshots[r] == old(snapshots)[r]
    {
      hide Bijective, EntriesMarked, RowsMarked, AllWithin, SetOf, InOrder, Distinct;
      var order := OrderedPaths();
      paths := order;
      rows := DetachRows(order);
    }

    /** `take`: one snapshot in insertion order, leaving nothing behind. */
    method Take() returns (rows: seq<Row>, ghost paths: seq<string>)
      requires Valid()
      modifies this`changes, this`ordered, this`nextOrder, this`snapshots
      ensures Valid() && changes == map[] && nextOrder == 0 && View() == old(View()) - SetOf(paths)
      ensures SetOf(paths) == old(changes).Keys && Detached(rows, paths, old(changes)) && Distinct(paths)
      ensures InOrder(old(changes), paths)
      ensures old(snapshots.Keys) <= snapshots.Keys &&
        forall r | r in old(snapshots) :: snapshots[r] == old(snapshots)[r]
    {
      hide Bijective, EntriesMarked, RowsMarked, AllWithin, SetOf, InOrder, Distinct, ViewOf;
      rows, paths := Iterate();
      ViewWithoutAll(changes);
      changes, ordered, nextOrder := map[], map[], 0;
      NothingIsBijective();
    }

    /** What restoring these rows stands for: provenance only for unmodified rows
        this set issued. */
    ghost function Provenance(rows: seq<Row>): (hs: seq<Held>)
      reads this, rows
      ensures |hs| == |rows|
    {
      seq(|rows|, i requires 0 <= i < |rows| reads this, rows => HeldRow(rows[i]))
    }

    ghost function HeldRow(row: Row): Held
      reads this, row
    {
      if row in snapshots && snapshots[row].change == row.change then HeldOf(snapshots[row]) else Held(row.change, None)
    }

    /** `restore`: never overwrites a newer entry. */
    method Restore(rows: seq<Row>) returns (ok: bool, ghost done: nat)
      requires Valid()
      modifies this`changes, this`ordered, this`nextOrder
      ensures Valid() && done <= |rows| && (ok <==> done == |rows|)
      ensures View() == RestoredAll(old(View()), old(Provenance(rows))[..done])
      ensures ok ==> View() == RestoredAll(old(View()), old(Provenance(rows)))
      ensures !ok ==> nextOrder >= MAX_SAFE_INTEGER
      ensures nextOrder <= old(nextOrder) + |rows|
    {
      hide Bijective, EntriesMarked, AllWithin, ViewOf;
      ghost var hs := Provenance(rows);
      for n := 0 to |rows|
        invariant Valid() && snapshots == old(snapshots) && nextOrder <= old(nextOrder) + n
        invariant View() == RestoredAll(old(View()), hs[..n])
      {
        var raw := rows[n];
        var entry;
        if raw in snapshots && snapshots[raw].change == raw.change {
          entry := snapshots[raw];
        } else {
          entry := new DirtyEntry(raw.change, None);
        }
        assert HeldOf(entry) == hs[n];
        var restored := RestoreEntry(entry);
        if !restored { return false, n; }
        assert hs[..n + 1][..n] == hs[..n];
      }
      assert hs[..|rows|] == hs;
      return true, |rows|;
    }

    static ghost predicate Replayable(batch: seq<Change>) {
      |batch| <= RETIREMENT_LIMIT &&
        forall i | 0 <= i < |batch| :: SafePath(batch[i].path) && Durable(batch[i].journalId)
    }

    static method CheckReplay(batch: seq<Change>) returns (ok: bool)
      ensures ok <==> Replayable(batch)
    {
      if |batch| > RETIREMENT_LIMIT { return false; }
      for n := 0 to |batch|
        invariant forall i | 0 <= i < n :: SafePath(batch[i].path) && Durable(batch[i].journalId)
      {
        if !SafePath(batch[n].path) || !Durable(batch[n].journalId) { return false; }
      }
      return true;
    }

    /** `restoreJournal`: a validated replay is the one outside source of provenance;
        the whole batch is checked before anything changes. */
    method RestoreJournal(batch: seq<Change>) returns (ok: bool, ghost done: nat)
      requires Valid()
      modifies this`changes, this`ordered, this`nextOrder
      ensures Valid() && done <= |batch|
      ensures ok <==> Replayable(batch) && done == |batch|
      ensures View() == RestoredAll(old(View()), Proven(batch)[..done])
      ensures ok ==> View() == RestoredAll(old(View()), Proven(batch))
      ensures !ok && Replayable(batch) ==> nextOrder >= MAX_SAFE_INTEGER
      ensures !Replayable(batch) ==> unchanged(this)
    {
      hide Bijective, EntriesMarked, RowsMarked, AllWithin, SafePath, ViewOf;
      var valid := CheckReplay(batch);
      if !valid { return false, 0; }
      ghost var hs := Proven(batch);
      for n := 0 to |batch|
        invariant Valid() && View() == RestoredAll(old(View()), hs[..n])
      {
        var entry := new DirtyEntry(batch[n], batch[n].journalId);
        assert HeldOf(entry) == hs[n];
        var restored := RestoreEntry(entry);
        if !restored { return false, n; }
        assert hs[..n + 1][..n] == hs[..n];
      }
      assert hs[..|batch|] == hs;
      return true, |batch|;
    }

    // ------------------------------------------------------------ retirement

    /** Cuts that name ordered, unique, safe paths and durable generations. */
    static predicate WellFormed(cuts: seq<Cut>) {
      && |cuts| <= RETIREMENT_LIMIT
      && (forall c | c in cuts :: SafePath(c.path) && Durable(Some(c.throughId)))
      && (forall i | 0 < i < |cuts| :: PathLess(cuts[i - 1].path, cuts[i].path))
    }

    /** The candidates for a cut: live entries wholly within it, as objects. */
    static ghost predicate CandidatesFor(changes: map<string, Slot>, candidates: seq<Candidate>, cuts: seq<Cut>) {
      && (forall c | c in candidates ::
            && Cut(c.path, c.throughId) in cuts
            && c.path in changes && changes[c.path].entry == c.entry && Within(c.entry, c.throughId))
      && (forall k | k in cuts && k.path in changes && Within(changes[k.path].entry, k.throughId) ::
            Candidate(k.path, changes[k.path].entry, k.throughId) in candidates)
    }

    static method SelectCandidates(changes: map<string, Slot>, cuts: seq<Cut>) returns (r: Option<seq<Candidate>>)
      ensures r.Some? <==> WellFormed(cuts)
      ensures r.Some? ==> CandidatesFor(changes, r.value, cuts)
    {
      hide SafePath, PathLess, Within, Durable;
      if |cuts| > RETIREMENT_LIMIT { return None; }
      var candidates := [];
      for n := 0 to |cuts|
        invariant forall i | 0 <= i < n :: SafePath(cuts[i].path) && Durable(Some(cuts[i].throughId))
        invariant forall i | 0 < i < n :: PathLess(cuts[i - 1].path, cuts[i].path)
        invariant CandidatesFor(changes, candidates, cuts[..n])
      {
        var c := cuts[n];
        if !SafePath(c.path) || !Durable(Some(c.throughId)) || (n > 0 && !PathLess(cuts[n - 1].path, c.path)) {
          assert c in cuts;
          return None;
        }
        assert cuts[..n + 1] == cuts[..n] + [c];
        if c.path in changes && Within(changes[c.path].entry, c.throughId) {
          candidates := candidates + [Candidate(c.path, changes[c.path].entry, c.throughId)];
        }
      }
      assert cuts[..|cuts|] == cuts;
      return Some(candidates);
    }

    method CaptureRetirement(cuts: seq<Cut>) returns (token: Option<RetirementToken>)
      requires Valid()
      modifies this`retirement
      ensures Valid()
      ensures token.Some? <==> WellFormed(cuts)
      ensures token.None? ==> retirement == old(retirement)
      ensures token.Some? ==> fresh(token.value) && retirement.Some? && retirement.value.token == token.value &&
                              CandidatesFor(changes, retirement.value.candidates, cuts)
    {
      var candidates := SelectCandidates(changes, cuts);
      if candidates.None? { return None; }
      var t := new RetirementToken();
      retirement := Some(Retirement(t, candidates.value));
      return Some(t);
    }

    /** The paths whose live entry is the very object captured. */
    static ghost function StillCaptured(changes: map<string, Slot>, candidates: seq<Candidate>): set<string> {
      set p | p in changes && exists c | c in candidates :: c.path == p && c.entry == changes[p].entry
    }

    static method Retire(changes: map<string, Slot>, ordered: map<nat, DirtyEntry>, ghost nextOrder: nat,
                         candidates: seq<Candidate>)
      returns (left: map<string, Slot>, order: map<nat, DirtyEntry>, removed: nat)
      requires Bijective(changes, ordered, nextOrder)
      ensures Bijective(left, order, nextOrder) && (EntriesMarked(changes) ==> EntriesMarked(left))
      ensures left == changes - StillCaptured(changes, candidates)
      ensures removed == Size(changes) - Size(left)
    {
      hide Bijective, EntriesMarked, StillCaptured, Size;
      left, order, removed := changes, ordered, 0;
      NoneCaptured(changes);
      for n := 0 to |candidates|
        invariant Bijective(left, order, nextOrder) && (EntriesMarked(changes) ==> EntriesMarked(left))
        invariant left == changes - StillCaptured(changes, candidates[..n])
        invariant removed == Size(changes) - Size(left)
      {
        var c := candidates[n];
        CapturedGrows(changes, candidates, n);
        ghost var captured := StillCaptured(changes, candidates[..n]);
        DropMore(changes, captured, c.path);
        if c.path in left && left[c.path].entry == c.entry {
          RemoveOne(left, order, nextOrder, c.path);
          order := order - {left[c.path].order};
          left := left - {c.path};
          removed := removed + 1;
        }
      }
      assert candidates[..|candidates|] == candidates;
    }

    /** `commitRetirement`: removes exactly the captured objects that are still live,
        each of them wholly within its cut. */
    method CommitRetirement(token: RetirementToken) returns (removed: nat)
      requires Valid()
      modifies this`changes, this`ordered, this`nextOrder, this`retirement
      ensures Valid()
      ensures old(retirement).None? || old(retirement).value.token != token ==>
              removed == 0 && unchanged(this)
      ensures old(retirement).Some? && old(retirement).value.token == token ==>
              retirement == None &&
                changes == old(changes) - StillCaptured(old(changes), old(retirement).value.candidates)
      ensures removed == Size(old(changes)) - Size(changes)
      ensures forall p | p in old(changes) && p !in changes :: WithinSome(old(changes)[p].entry)
    {
      hide Bijective, EntriesMarked, RowsMarked, WithinSome, AllWithin, StillCaptured, Size;
      if retirement.None? || retirement.value.token != token { return 0; }
      var candidates := retirement.value.candidates;
      CapturedAreWithin(changes, candidates);
      retirement := None;
      var left, order;
      left, order, removed := Retire(changes, ordered, nextOrder, candidates);
      changes, ordered := left, order;
      if changes == map[] {
        EmptyRestarts(changes, ordered, nextOrder);
        nextOrder := 0;
      }
    }

    static lemma NoneCaptured(changes: map<string, Slot>)
      ensures StillCaptured(changes, []) == {} && changes - StillCaptured(changes, []) == changes
    {}

    static lemma CapturedAreWithin(changes: map<string, Slot>, candidates: seq<Candidate>)
      requires AllWithin(candidates)
      ensures StillCaptured(changes, candidates) <= changes.Keys
      ensures forall p | p in changes && p !in changes - StillCaptured(changes, candidates) ::
        WithinSome(changes[p].entry)
    {
      forall p | p in StillCaptured(changes, candidates) ensures WithinSome(changes[p].entry) {
        var c :| c in candidates && c.path == p && c.entry == changes[p].entry;
        assert Within(changes[p].entry, c.throughId);
      }
    }

    static lemma CapturedGrows(changes: map<string, Slot>, candidates: seq<Candidate>, n: nat)
      requires n < |candidates|
      ensures var c := candidates[n];
              StillCaptured(changes, candidates[..n + 1]) == StillCaptured(changes, candidates[..n]) +
                if c.path in changes && changes[c.path].entry == c.entry then {c.path} else {}
    {
      assert candidates[..n + 1] == candidates[..n] + [candidates[n]];
    }

    // ------------------------------------------------------- whole transactions

    method AddMany(additions: seq<Addition>) returns (ok: bool)
      requires Valid()
      modifies this`changes, this`ordered, this`nextOrder
      ensures Valid()
      ensures ok ==> View() == AddedAll(old(View()), additions)
      ensures !ok ==> nextOrder >= MAX_SAFE_INTEGER
      ensures nextOrder <= old(nextOrder) + |additions|
      ensures ok ==> forall p | p in changes ::
                if Touched(additions, p) then fresh(changes[p].entry)
                else p in old(changes) && changes[p] == old(changes)[p]
      ensures ok ==> forall p | p in old(changes) || Touched(additions, p) :: p in changes
    {
      hide Bijective, EntriesMarked, RowsMarked, AllWithin, Added, ViewOf;
      for n := 0 to |additions|
        invariant Valid() && View() == AddedAll(old(View()), additions[..n]) && nextOrder <= old(nextOrder) + n
        invariant forall p | p in changes ::
          if Touched(additions[..n], p) then fresh(changes[p].entry)
          else p in old(changes) && changes[p] == old(changes)[p]
        invariant forall p | p in old(changes) || Touched(additions[..n], p) :: p in changes
      {
        var added := Add(additions[n]);
        if !added { return false; }
        assert additions[..n + 1] == additions[..n] + [additions[n]];
        assert additions[..n + 1][..n] == additions[..n];
      }
      assert additions[..|additions|] == additions;
      return true;
    }

    /** The rows are unmodified copies of these paths' entries of `source`. */
    ghost predicate Trace(rows: seq<Row>, paths: seq<string>, source: map<string, Slot>)
      reads this, rows
    {
      && |rows| == |paths| && Distinct(paths)
      && (forall i | 0 <= i < |rows| ::
            && paths[i] in source && source[paths[i]].entry.change.path == paths[i]
            && HeldRow(rows[i]) == HeldOf(source[paths[i]].entry))
    }

    /** Any adds, then a restore of everything detached from `source`: what the restore
        says, and the adds alone exactly if they lose no detached watermark. */
    method AddThenRestore(rows: seq<Row>, additions: seq<Addition>, ghost paths: seq<string>,
                          ghost source: map<string, Slot>)
      returns (ok: bool)
      requires Valid() && Trace(rows, paths, source) && View() == ViewOf(source) - SetOf(paths)
      modifies this`changes, this`ordered, this`nextOrder
      ensures Valid()
      ensures ok ==> View() == RestoredAll(AddedAll(ViewOf(source) - SetOf(paths), additions), HeldAt(source, paths))
      ensures ok ==> (View() == AddedAll(ViewOf(source), additions) <==> AllLossless(HeldAt(source, paths), additions))
      ensures ok && Unsigned(source, paths) ==> View() == AddedAll(ViewOf(source), additions)
      ensures old(nextOrder) + |additions| + |paths| < MAX_SAFE_INTEGER ==> ok
      ensures !ok ==> nextOrder >= MAX_SAFE_INTEGER
    {
      hide Bijective, EntriesMarked, RowsMarked, AllWithin, AddedAll, RestoredAll, ViewOf, SetOf;
      ghost var hs := Provenance(rows);
      ClaimLists(source, ViewOf(source), paths, hs);
      assert hs == HeldAt(source, paths);
      DetachAddRestoreExactly(ViewOf(source), hs, additions);
      assert Unsigned(source, paths) ==>
        forall i | 0 <= i < |hs| :: paths[i] in paths && NonNegative(hs[i].change.journalId);
      ok := AddMany(additions);
      if !ok { return; }
      assert Provenance(rows) == hs;
      ghost var done;
      ok, done := Restore(rows);
    }

    /** A failed push: claim, meanwhile any adds, then restore the claimed rows. */
    method ClaimAddRestore(capture: Capture, paths: seq<string>, additions: seq<Addition>)
      returns (claimed: bool, ok: bool)
      requires Valid()
      modifies this`changes, this`ordered, this`nextOrder, this`snapshots
      ensures Valid()
      ensures claimed <==> |paths| <= CLAIM_LIMIT && Distinct(paths) && (forall p | p in paths :: SafePath(p)) &&
                           capture in captures && old(Current(captures[capture], paths))
      ensures !claimed ==> unchanged(this)
      ensures claimed && ok ==>
        View() == RestoredAll(AddedAll(old(View()) - SetOf(paths), additions), HeldAt(old(changes), paths))
      ensures claimed && ok ==>
        (View() == AddedAll(old(View()), additions) <==> AllLossless(HeldAt(old(changes), paths), additions))
      ensures claimed && ok && Unsigned(old(changes), paths) ==> View() == AddedAll(old(View()), additions)
      ensures old(nextOrder) + |additions| + |paths| < MAX_SAFE_INTEGER ==> ok
      ensures claimed && !ok ==> nextOrder >= MAX_SAFE_INTEGER
    {
      assert forall p | p in changes :: changes[p].entry.change.path == p;
      hide Bijective, EntriesMarked, RowsMarked, AllWithin, SafePath, AddedAll, RestoredAll, ViewOf, SetOf;
      var r := Claim(capture, paths);
      if !r.Rows? { return false, true; }
      claimed := true;
      ok := AddThenRestore(r.rows, additions, paths, old(changes));
    }

    /** The same for a claim by the very rows that were handed out. */
    method ClaimHintsAddRestore(hints: seq<Row>, additions: seq<Addition>) returns (claimed: bool, ok: bool)
      requires Valid()
      modifies this`changes, this`ordered, this`nextOrder, this`snapshots
      ensures Valid()
      ensures claimed <==>
        |hints| <= CLAIM_LIMIT && Distinct(PathsOf(hints)) && (forall h | h in hints :: SafePath(h.change.path)) &&
                           old(Genuine(hints))
      ensures !claimed ==> unchanged(this)
      ensures claimed && ok ==>
        View() == RestoredAll(AddedAll(old(View()) - SetOf(PathsOf(hints)), additions),
          HeldAt(old(changes), PathsOf(hints)))
      ensures claimed && ok ==>
        (View() == AddedAll(old(View()), additions) <==> AllLossless(HeldAt(old(changes), PathsOf(hints)), additions))
      ensures claimed && ok && Unsigned(old(changes), PathsOf(hints)) ==> View() == AddedAll(old(View()), additions)
      ensures old(nextOrder) + |additions| + |hints| < MAX_SAFE_INTEGER ==> ok
      ensures claimed && !ok ==> nextOrder >= MAX_SAFE_INTEGER
    {
      assert forall p | p in changes :: changes[p].entry.change.path == p;
      hide Bijective, EntriesMarked, RowsMarked, AllWithin, SafePath, AddedAll, RestoredAll, ViewOf, SetOf, PathsOf;
      ghost var paths := PathsOf(hints);
      var r := ClaimHints(hints);
      if !r.Rows? { return false, true; }
      claimed := true;
      ok := AddThenRestore(r.rows, additions, paths, old(changes));
    }

    /** The same with everything taken. */
    method TakeAddRestore(additions: seq<Addition>) returns (ok: bool, ghost paths: seq<string>)
      requires Valid()
      modifies this`changes, this`ordered, this`nextOrder, this`snapshots
      ensures Valid() && SetOf(paths) == old(changes).Keys && InOrder(old(changes), paths)
      ensures ok ==> View() == RestoredAll(AddedAll(old(View()) - SetOf(paths), additions), HeldAt(old(changes), paths))
      ensures ok ==>
        (View() == AddedAll(old(View()), additions) <==> AllLossless(HeldAt(old(changes), paths), additions))
      ensures ok && Sane(old(View())) ==> View() == AddedAll(old(View()), additions)
      ensures !ok ==> nextOrder >= MAX_SAFE_INTEGER
    {
      assert forall p | p in changes :: changes[p].entry.change.path == p && View()[p] == HeldOf(changes[p].entry);
      hide Bijective, EntriesMarked, RowsMarked, AllWithin, AddedAll, RestoredAll, ViewOf, SetOf, InOrder;
      var rows;
      rows, paths := Take();
      ok := AddThenRestore(rows, additions, paths, old(changes));
    }

    static lemma ClaimLists(changes: map<string, Slot>, v: View, paths: seq<string>, hs: seq<Held>)
      requires v == ViewOf(changes)
      requires |hs| == |paths| && Distinct(paths)
      requires forall i | 0 <= i < |paths| :: paths[i] in changes && changes[paths[i]].entry.change.path == paths[i] &&
                                              hs[i] == HeldOf(changes[paths[i]].entry)
      ensures Lists(v, hs) && Paths(hs) == SetOf(paths)
    {
      forall p | p in SetOf(paths) ensures p in Paths(hs) {
        var i :| 0 <= i < |paths| && paths[i] == p;
        assert hs[i].change.path == p;
      }
    }

    /** A journal ACK with events in between: what retires is exactly what was
        captured within its cut and not touched since. */
    method CaptureAddCommit(cuts: seq<Cut>, additions: seq<Addition>) returns (valid: bool, ok: bool)
      requires Valid()
      modifies this`changes, this`ordered, this`nextOrder, this`retirement
      ensures Valid()
      ensures valid <==> WellFormed(cuts)
      ensures valid && ok ==> View() == AddedAll(old(View()), additions) - Untouched(old(changes), cuts, additions)
      ensures valid && !ok ==> nextOrder >= MAX_SAFE_INTEGER
    {
      hide Bijective, EntriesMarked, RowsMarked, WellFormed, Within, Untouched, StillCaptured, Touched, Size,
           WithinSome, AddedAll, ViewOf;
      var token := CaptureRetirement(cuts);
      if token.None? { return false, true; }
      valid := true;
      ghost var candidates := retirement.value.candidates;
      ok := AddMany(additions);
      if !ok { return; }
      assert forall c | c in candidates :: c.entry == old(changes)[c.path].entry;
      RetiredExactly(old(changes), changes, candidates, cuts, additions);
      ViewWithout(changes, Untouched(old(changes), cuts, additions));
      var removed := CommitRetirement(token.value);
    }

    static lemma RetiredExactly(before: map<string, Slot>, now: map<string, Slot>, candidates: seq<Candidate>,
                                cuts: seq<Cut>, additions: seq<Addition>)
      requires CandidatesFor(before, candidates, cuts)
      requires forall p | p in now && !Touched(additions, p) :: p in before && now[p] == before[p]
      requires forall p, c | p in now && Touched(additions, p) && c in candidates :: now[p].entry != c.entry
      requires forall p | p in before :: p in now
      ensures StillCaptured(now, candidates) == Untouched(before, cuts, additions)
    {
      forall p | p in StillCaptured(now, candidates)
        ensures p in before && !Touched(additions, p) && InCut(cuts, p, before[p].entry)
      {
        var c :| c in candidates && c.path == p && c.entry == now[p].entry;
        assert Cut(c.path, c.throughId) in cuts;
      }
      forall p | p in before && !Touched(additions, p) && InCut(cuts, p, before[p].entry)
        ensures p in StillCaptured(now, candidates)
      {
        var k :| k in cuts && k.path == p && Within(before[p].entry, k.throughId);
        assert Candidate(k.path, before[k.path].entry, k.throughId) in candidates;
      }
    }
  }

  /** A replayed change carries its own generation. */
  function Proven(batch: seq<Change>): (hs: seq<Held>)
    ensures |hs| == |batch|
  {
    seq(|batch|, i requires 0 <= i < |batch| => Held(batch[i], batch[i].journalId))
  }

  /** The entries of these paths. */
  function HeldAt(changes: map<string, Slot>, paths: seq<string>): seq<Held> {
    seq(|paths|, i requires 0 <= i < |paths| =>
      if paths[i] in changes then HeldOf(changes[paths[i]].entry)
      else Held(Change(paths[i], None, FileState(Deleted, None, None, None)), None))
  }

  /** None of them has a negative watermark. */
  ghost predicate Unsigned(changes: map<string, Slot>, paths: seq<string>) {
    forall i | 0 <= i < |paths| :: paths[i] in changes ==> NonNegative(changes[paths[i]].entry.change.journalId)
  }

  lemma SaneIsUnsigned(changes: map<string, Slot>, paths: seq<string>)
    requires Sane(ViewOf(changes))
    ensures Unsigned(changes, paths)
  {
    forall i | 0 <= i < |paths| && paths[i] in changes
      ensures NonNegative(changes[paths[i]].entry.change.journalId)
    {
      assert paths[i] in ViewOf(changes);
    }
  }

  predicate Touched(additions: seq<Addition>, p: string) {
    exists a | a in additions :: a.path == p
  }

  /** The paths whose entry a cut covers and no addition replaced. */
  function Untouched(changes: map<string, Slot>, cuts: seq<Cut>, additions: seq<Addition>): set<string> {
    set p | p in changes && !Touched(additions, p) && InCut(cuts, p, changes[p].entry)
  }

  /** A cut of this path covers the entry completely. */
  predicate InCut(cuts: seq<Cut>, p: string, e: DirtyEntry) {
    exists k | k in cuts :: k.path == p && Within(e, k.throughId)
  }

  function PathsOf(rows: seq<Row>): (r: seq<string>)
    reads rows
    ensures |r| == |rows|
  {
    seq(|rows|, i requires 0 <= i < |rows| reads rows => rows[i].change.path)
  }

  function SetOf(paths: seq<string>): set<string> {
    set p | p in paths
  }

  predicate Distinct(paths: seq<string>) {
    forall i, j | 0 <= i < j < |paths| :: paths[i] != paths[j]
  }
}
