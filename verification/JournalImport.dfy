/** Import of a parsed legacy journal: all mutations, then all acknowledgements. */
module JournalImport {
  import opened Common
  import opened JournalKeys
  import opened JournalIndices
  import JournalLog
  import opened JournalFormat

  /** Appending every mutation in order. */
  ghost function AppendAll(es: seq<Entry>): (r: Result<JournalIndex, Fault>)
    ensures r.Ok? ==> Agree(r.value)
  {
    if es == [] then Ok(EMPTY)
    else
      var before := AppendAll(es[..|es| - 1]);
      if before.Err? then before
      else
        var next := Append(before.value, es[|es| - 1]);
        if next.Ok? then
          AppendAgrees(before.value, es[|es| - 1]);
          next
        else next
  }

  ghost function Elements(es: seq<Entry>): set<Entry> {
    set e | e in es
  }

  lemma {:induction false} AppendAllDenotes(es: seq<Entry>)
    requires AppendAll(es).Ok?
    ensures Denotes(AppendAll(es).value, Elements(es), map[])
    ensures forall e | e in es :: ValidEntry(e)
  {
    hide Agree, ValidEntry, Append, Denotes;
    if es == [] {
      EmptyDenotes(map[]);
      assert Elements(es) == {};
    } else {
      var before, e := es[..|es| - 1], es[|es| - 1];
      AppendAllDenotes(before);
      AppendedIsValid(AppendAll(before).value, e);
      AppendDenotes(AppendAll(before).value, Elements(before), map[], e);
      assert es == before + [e];
      assert Elements(es) == Elements(before) + {e};
    }
  }

  lemma AppendedIsValid(idx: JournalIndex, e: Entry)
    requires Agree(idx) && Append(idx, e).Ok?
    ensures ValidEntry(e) && Uncovered(e, map[])
  {}

  method ImportMutations(mutations: seq<Entry>) returns (r: Result<JournalIndex, Fault>)
    ensures r.Ok? <==> AppendAll(mutations).Ok?
    ensures r.Ok? ==> r == AppendAll(mutations)
  {
    EmptyAgrees();
    hide Agree, Append;
    var index := EMPTY;
    for i := 0 to |mutations|
      invariant AppendAll(mutations[..i]) == Ok(index)
    {
      assert mutations[..i + 1][..i] == mutations[..i];
      var next := Appended(index, mutations[i]);
      if next.Err? {
        AppendAllFails(mutations, i + 1);
        return Err(next.error);
      }
      index := next.value;
    }
    assert mutations[..|mutations|] == mutations;
    return Ok(index);
  }

  /** `Append` on an index whose maps agree. */
  function Appended(idx: JournalIndex, e: Entry): Result<JournalIndex, Fault>
    requires Agree(idx)
  {
    Append(idx, e)
  }

  /** The import loops. Whatever order the acknowledgements come in, a successful
      import has exactly the meaning of the parsed mutations and watermarks. */
  method ImportLegacy(parsed: Parsed) returns (r: Result<JournalLog.State, Fault>)
    requires Bounded(parsed.mutations, parsed.acknowledgements, parsed.nextId)
    ensures r.Ok? <==> AppendAll(parsed.mutations).Ok?
    ensures r.Ok? ==> Denotes(r.value.index, Elements(parsed.mutations), parsed.acknowledgements)
    ensures r.Ok? ==> r.value.nextId == parsed.nextId && JournalLog.Sound(r.value)
  {
    var mutations := ImportMutations(parsed.mutations);
    if mutations.Err? { return Err(mutations.error); }
    AppendAllDenotes(parsed.mutations);
    hide AppendAll, ValidWatermark, ValidEntry, JournalLog.Sound;
    ghost var es := Elements(parsed.mutations);
    var index, nextId := mutations.value, parsed.nextId;
    var remaining := parsed.acknowledgements.Keys;
    ghost var seen: Acks := map[];
    while remaining != {}
      invariant remaining <= parsed.acknowledgements.Keys
      invariant seen == map p | p in parsed.acknowledgements && p !in remaining :: parsed.acknowledgements[p]
      invariant Denotes(index, es, seen)
      invariant nextId == parsed.nextId
    {
      var p :| p in remaining;
      var throughId := parsed.acknowledgements[p];
      var next := AcknowledgeOne(index, es, seen, p, throughId);
      seen := WithAck(seen, p, throughId);
      index := next;
      nextId := Max(nextId, throughId + 1);
      remaining := remaining - {p};
    }
    assert seen == parsed.acknowledgements;
    ImportedIsSound(index, es, seen, nextId);
    return Ok(JournalLog.State(index, nextId));
  }

  lemma ImportedIsSound(idx: JournalIndex, es: set<Entry>, a: Acks, nextId: nat)
    requires Denotes(idx, es, a) && 1 <= nextId <= MAX_SAFE_INTEGER
    requires forall e | e in es :: ValidEntry(e) && e.id < nextId
    ensures JournalLog.Sound(JournalLog.State(idx, nextId))
  {
    forall k | k in idx.ordered ensures idx.ordered[k].entry in es {
      assert Holds(idx, idx.ordered[k]);
      assert Expected(idx.ordered[k], es, a);
    }
  }

  /** From text to index: when the import of a journal text succeeds, its pending
      paths are exactly those of the parser's own view, for every path. */
  method ImportText(lib: Library, raw: string) returns (r: Result<JournalLog.State, Fault>)
    ensures r.Ok? <==> Parse(lib, raw).Ok? && AppendAll(Parse(lib, raw).value.mutations).Ok?
    ensures r.Ok? ==> JournalLog.Sound(r.value) && r.value.nextId == Parse(lib, raw).value.nextId
    ensures r.Ok? ==> forall p :: HasPath(r.value.index, p) <==> Mentions(Parse(lib, raw).value.entries, p)
  {
    var parsed := ParseJournal(lib, raw);
    if parsed.Err? { return Err(parsed.error); }
    ParseIsBounded(lib, raw);
    r := ImportLegacy(parsed.value);
    if r.Ok? {
      ghost var index, es, a := r.value.index, parsed.value.mutations, parsed.value.acknowledgements;
      forall p ensures HasPath(index, p) <==> Mentions(parsed.value.entries, p) {
        ImportKeepsPendingPaths(index, es, a, p);
      }
    }
    hide Denotes, HasPath, Mentions, Projection, AppendAll, Parse, Bounded;
  }

  method AcknowledgeOne(idx: JournalIndex, ghost es: set<Entry>, ghost a: Acks, p: string, throughId: nat)
    returns (next: JournalIndex)
    requires Denotes(idx, es, a) && ValidWatermark(p, throughId)
    ensures Denotes(next, es, WithAck(a, p, throughId))
  {
    var r := Acknowledge(idx, p, throughId);
    AcknowledgeDenotes(idx, es, a, p, throughId, r.value);
    return r.value;
  }

  lemma {:induction false} AppendAllFails(es: seq<Entry>, n: nat)
    requires n <= |es| && AppendAll(es[..n]).Err?
    ensures AppendAll(es).Err?
  {
    hide Agree, Append;
    if n < |es| {
      assert es[..|es| - 1][..n] == es[..n];
      AppendAllFails(es[..|es| - 1], n);
    } else {
      assert es[..n] == es;
    }
  }

  /** Does the compatibility view mention `p`? */
  predicate Mentions(es: seq<Entry>, p: string) {
    exists e | e in es :: Touches(e, p)
  }

  predicate Touches(e: Entry, p: string) {
    e.path == p || (e.action.Renamed? && e.oldPath == Some(p))
  }

  lemma {:induction false} ProjectionMentions(es: seq<Entry>, a: Acks, p: string)
    requires forall e | e in es :: ValidEntry(e)
    ensures Mentions(Projection(es, a), p) <==>
            exists e | e in es :: Touches(e, p) && e.id > AckedThrough(a, p)
  {
    hide ValidEntry;
    if es != [] {
      var before, last := es[..|es| - 1], es[|es| - 1];
      assert last in es && es == before + [last];
      ProjectionMentions(before, a, p);
      OneMentions(last, a, p);
      var all := Projection(es, a);
      assert all == Projection(before, a) + Projected(last, a);
      assert Mentions(all, p) <==> Mentions(Projection(before, a), p) || Mentions(Projected(last, a), p);
    }
  }

  lemma OneMentions(e: Entry, a: Acks, p: string)
    requires ValidEntry(e)
    ensures Mentions(Projected(e, a), p) <==> Touches(e, p) && e.id > AckedThrough(a, p)
  {
    var view := Projected(e, a);
    if view != [] { assert view[0] in view; }
  }

  /** The index after import has exactly the pending paths of the parser's own,
      uncoalesced view: coalescing hides no path and invents none. */
  lemma ImportKeepsPendingPaths(idx: JournalIndex, es: seq<Entry>, a: Acks, p: string)
    requires Denotes(idx, Elements(es), a) && forall e | e in es :: ValidEntry(e)
    ensures HasPath(idx, p) <==> Mentions(Projection(es, a), p)
  {
    ProjectionMentions(es, a, p);
    assert forall e :: e in Elements(es) <==> e in es;
    PendingInIndex(idx, Elements(es), a, p);
    hide Denotes, HasPath, ValidEntry, Projection, Mentions, Touches, AckedThrough;
  }

  lemma PendingInIndex(idx: JournalIndex, es: set<Entry>, a: Acks, p: string)
    requires Denotes(idx, es, a) && forall e | e in es :: ValidEntry(e)
    ensures HasPath(idx, p) <==> exists e | e in es :: Touches(e, p) && e.id > AckedThrough(a, p)
  {
    HasPathIsPending(idx, p);
    if k :| k in idx.ordered && idx.ordered[k].Awaits(p) {
      assert Holds(idx, idx.ordered[k]);
      assert Expected(idx.ordered[k], es, a);
      assert Touches(idx.ordered[k].entry, p);
    }
    forall e | e in es && Touches(e, p) && e.id > AckedThrough(a, p) ensures HasPath(idx, p) {
      if e.action.Renamed? {
        RenameIsPending(idx, es, a, e, p);
      } else if e.path !in idx.normalByPath {
        NoPointerMeansAcknowledged(idx, es, a, e);
      }
    }
  }

  lemma RenameIsPending(idx: JournalIndex, es: set<Entry>, a: Acks, e: Entry, p: string)
    requires Denotes(idx, es, a) && e in es && ValidEntry(e) && e.action.Renamed?
    requires Touches(e, p) && e.id > AckedThrough(a, p)
    ensures exists k :: k in idx.ordered && idx.ordered[k].Awaits(p)
  {
    var r := Rename(e, e.id > AckedThrough(a, e.oldPath.value), e.id > AckedThrough(a, e.path));
    assert Holds(idx, r) <==> Expected(r, es, a);
    assert idx.ordered[KeyOf(r)].Awaits(p);
  }

  // -------------------------------------------------- the order of mutations

  /** Two successful imports of the same mutations, in whatever orders and with
      whatever repetitions, build the same index. */
  lemma ImportOrderIrrelevant(es: seq<Entry>, fs: seq<Entry>)
    requires Elements(es) == Elements(fs)
    requires AppendAll(es).Ok? && AppendAll(fs).Ok?
    ensures AppendAll(es) == AppendAll(fs)
  {
    AppendAllDenotes(es);
    AppendAllDenotes(fs);
    DenotesDetermines(AppendAll(es).value, AppendAll(fs).value, Elements(es), map[]);
  }

  /** No two different mutations share a generation and their paths. */
  ghost predicate ConflictFree(es: set<Entry>) {
    forall e, f | e in es && f in es && SameIdentity(e, f) :: e == f
  }

  predicate SameIdentity(e: Entry, f: Entry) {
    e.id == f.id && e.path == f.path && (e.action.Renamed? <==> f.action.Renamed?) &&
    (e.action.Renamed? ==> e.oldPath == f.oldPath)
  }

  /** Success itself depends on the order: a contradiction behind a newer row is
      never noticed, the same contradiction in front of it is refused. */
  lemma SuccessDependsOnOrder()
    ensures exists a, b, c :: AppendAll([a, b, c]).Err? && AppendAll([c, a, b]).Ok?
  {
    var m, n := Metadata(0, None, None, None), Metadata(1, None, None, None);
    var a, b, c := Entry(5, Created, "a", None, m), Entry(5, Created, "a", None, n), Entry(7, Created, "a", None, m);
    SingleLetterPath();
    SafeIsFinite(1);
    ConflictFirstFails(a, b);
    assert [a, b, c][..2] == [a, b];
    AppendAllFails([a, b, c], 2);
    MaskedConflictImports(a, b, c);
    hide AppendAll, SafePath;
  }

  lemma MaskedConflictImports(a: Entry, b: Entry, c: Entry)
    requires ValidEntry(a) && ValidEntry(b) && ValidEntry(c)
    requires NormalAt(a, c.path) && NormalAt(b, c.path) && NormalAt(c, c.path) && a.id < c.id && b.id < c.id
    ensures AppendAll([c, a, b]).Ok?
  {
    var top := InsertRecord(EMPTY, Normal(c));
    assert [c][..0] == [] && [c, a][..1] == [c] && [c, a, b][..2] == [c, a];
    assert Append(EMPTY, c) == Ok(top);
    assert Append(top, a) == Ok(top) && Append(top, b) == Ok(top);
    hide Append, InsertRecord, ValidEntry, Agree;
    assert AppendAll([c]) == Ok(top);
    assert AppendAll([c, a]) == Ok(top);
  }

  /** Without contradictions every order succeeds. */
  lemma {:induction false} ConflictFreeImports(es: seq<Entry>)
    requires ConflictFree(Elements(es)) && forall e | e in es :: ValidEntry(e)
    ensures AppendAll(es).Ok?
  {
    hide Agree, ValidEntry, Append, Denotes;
    if es != [] {
      var before, e := es[..|es| - 1], es[|es| - 1];
      assert es == before + [e];
      assert Elements(before) <= Elements(es) && e in Elements(es);
      ConflictFreeImports(before);
      AppendAllDenotes(before);
      ConsistentAppendSucceeds(AppendAll(before).value, Elements(before), e);
    }
  }

  lemma ConsistentAppendSucceeds(idx: JournalIndex, es: set<Entry>, e: Entry)
    requires Denotes(idx, es, map[]) && ValidEntry(e)
    requires forall f | f in es && SameIdentity(e, f) :: e == f
    ensures Append(idx, e).Ok?
  {
    var key := KeyOf(NewRecord(e));
    if e.action.Renamed? && key in idx.ordered {
      assert Holds(idx, idx.ordered[key]);
      assert Expected(idx.ordered[key], es, map[]);
    }
    if !e.action.Renamed? && e.path in idx.normalByPath {
      var previous := idx.ordered[idx.normalByPath[e.path]];
      assert Holds(idx, previous);
      assert Expected(previous, es, map[]);
    }
  }

  /** The rows in another order. */
  ghost predicate Reordered(es: seq<Entry>, fs: seq<Entry>) {
    multiset(fs) == multiset(es)
  }

  /** With a contradiction some order of the rows is refused; so every order
      succeeds exactly when there is none. */
  lemma EveryOrderImportsIffConflictFree(es: seq<Entry>)
    requires forall e | e in es :: ValidEntry(e)
    ensures ConflictFree(Elements(es)) <==> forall fs | Reordered(es, fs) :: AppendAll(fs).Ok?
  {
    hide AppendAll, ValidEntry;
    if ConflictFree(Elements(es)) {
      forall fs | Reordered(es, fs)
        ensures AppendAll(fs).Ok?
      {
        SameRows(es, fs);
        ConflictFreeImports(fs);
      }
    } else {
      var e, f :| e in Elements(es) && f in Elements(es) && SameIdentity(e, f) && e != f;
      var fs := BroughtForward(es, e, f);
      ConflictFirstFails(e, f);
      AppendAllFails(fs, 2);
    }
  }

  lemma SameRows(es: seq<Entry>, fs: seq<Entry>)
    requires Reordered(es, fs)
    ensures Elements(fs) == Elements(es) && forall e | e in fs :: e in es
  {
    assert forall e :: e in fs <==> e in multiset(fs);
    assert forall e :: e in es <==> e in multiset(es);
  }

  /** Two different rows moved to the front, the others left in their order. */
  lemma BroughtForward(es: seq<Entry>, e: Entry, f: Entry) returns (fs: seq<Entry>)
    requires e in es && f in es && e != f
    ensures Reordered(es, fs) && |fs| >= 2 && fs[..2] == [e, f]
  {
    var rest := Without(es, f);
    assert e in multiset(es);
    var others := Without(rest, e);
    fs := [e, f] + others;
    assert multiset(fs) == multiset{e, f} + multiset(others);
  }

  lemma Without(es: seq<Entry>, e: Entry) returns (rest: seq<Entry>)
    requires e in es
    ensures multiset(es) == multiset(rest) + multiset{e}
  {
    var i :| 0 <= i < |es| && es[i] == e;
    rest := es[..i] + es[i + 1..];
    assert es == es[..i] + ([e] + es[i + 1..]);
  }

  lemma ConflictFirstFails(e: Entry, f: Entry)
    requires ValidEntry(e) && ValidEntry(f) && SameIdentity(e, f) && e != f
    ensures AppendAll([e, f]).Err?
  {
    assert [e][..0] == [] && [e, f][..1] == [e];
    assert AppendAll([e]) == Append(EMPTY, e);
    assert Append(EMPTY, e) == Ok(InsertRecord(EMPTY, NewRecord(e)));
    assert Append(InsertRecord(EMPTY, NewRecord(e)), f).Err?;
  }
}
