/** A dirty path set in the hands of a caller: every operation on it, the rows and
    captures handed out so far, and whole runs of such operations. */
module DirtySessions {
  import opened Common
  import opened DirtySets

  /** Rows and captures are named by the order they were handed out in. */
  datatype Operation =
    | DoAdd(addition: Addition)
    | DoTake
    | DoIterate
    | DoCapture
    | DoReadCapture(capture: nat, path: string)
    | DoClaim(capture: nat, paths: seq<string>)
    | DoClaimHints(hints: seq<nat>)
    | DoRestore(hints: seq<nat>)
    | DoRestoreForeign(change: Change)
    | DoRestoreJournal(batch: seq<Change>)
    | DoOverwrite(row: nat, change: Change)

  /** A row the caller made or rewrote is the only way a negative watermark gets in. */
  predicate Harmless(op: Operation) {
    (op.DoRestoreForeign? || op.DoOverwrite?) ==> NonNegative(op.change.journalId)
  }

  ghost predicate SaneRows(rows: seq<Row>)
    reads rows
  {
    forall r | r in rows :: NonNegative(r.change.journalId)
  }

  ghost predicate SaneCaptures(captures: map<Capture, map<string, Slot>>) {
    forall c | c in captures :: Sane(ViewOf(captures[c]))
  }

  class Session {
    const dirty: DirtyPathSet
    var rows: seq<Row>
    var captures: seq<Capture>

    constructor ()
      ensures fresh(dirty) && Valid() && Clean() && rows == [] && dirty.changes == map[]
    {
      dirty := new DirtyPathSet();
      rows, captures := [], [];
    }

    ghost function Rows(): set<Row>
      reads this
    {
      set r | r in rows
    }

    ghost predicate Valid()
      reads this, dirty
    {
      && dirty.Valid()
      && (forall c | c in dirty.captures :: EntriesMarked(dirty.captures[c]))
      && (forall c | c in captures :: c in dirty.captures)
    }

    /** No watermark anywhere is negative. */
    ghost predicate Clean()
      reads this, dirty, rows
    {
      Sane(dirty.View()) && SaneRows(rows) && SaneCaptures(dirty.captures)
    }

    /** The named rows; a name not handed out yet names nothing. */
    method Named(hints: seq<nat>) returns (named: seq<Row>)
      ensures forall r | r in named :: r in rows
    {
      named := [];
      for n := 0 to |hints|
        invariant forall r | r in named :: r in rows
      {
        if hints[n] < |rows| { named := named + [rows[hints[n]]]; }
      }
    }

    /** Rows that trace to entries of a sane view are sane. */
    method Keep(more: seq<Row>, ghost paths: seq<string>, ghost source: map<string, Slot>)
      requires |more| == |paths| &&
        forall i | 0 <= i < |more| :: paths[i] in source && more[i].change == source[paths[i]].entry.change
      modifies this`rows
      ensures rows == old(rows) + more
      ensures Sane(ViewOf(source)) && old(SaneRows(rows)) ==> SaneRows(rows)
    {
      rows := rows + more;
      if Sane(ViewOf(source)) && old(SaneRows(rows)) {
        forall r | r in rows
          ensures NonNegative(r.change.journalId)
        {
          if r in more {
            var i :| 0 <= i < |more| && more[i] == r;
            assert paths[i] in ViewOf(source);
          }
        }
      }
    }

    method Look(take: bool)
      requires Valid()
      modifies this`rows, dirty`changes, dirty`ordered, dirty`nextOrder, dirty`snapshots
      ensures Valid() && fresh(Rows() - old(Rows()))
      ensures old(Clean()) ==> Clean()
    {
      hide Bijective, EntriesMarked, RowsMarked, AllWithin, SetOf, ViewOf, InOrder, Distinct;
      var more;
      ghost var paths;
      if take {
        more, paths := dirty.Take();
      } else {
        more, paths := dirty.Iterate();
      }
      Keep(more, paths, old(dirty.changes));
    }

    method ReadCapture(capture: nat, path: string)
      requires Valid()
      modifies this`rows, dirty`snapshots
      ensures Valid() && fresh(Rows() - old(Rows()))
      ensures old(Clean()) ==> Clean()
    {
      hide Bijective, RowsMarked, AllWithin, ViewOf;
      if capture >= |captures| { return; }
      var captured := dirty.captures[captures[capture]];
      if path !in captured { return; }
      var row := dirty.Detach(captured[path].entry);
      Keep([row], [path], captured);
    }

    method Select(r: Claimed, ghost paths: seq<string>, ghost source: map<string, Slot>)
      requires Valid() && (r.Rows? ==> |r.rows| == |paths|)
      requires r.Rows? ==>
        forall i | 0 <= i < |paths| :: paths[i] in source && r.rows[i].change == source[paths[i]].entry.change
      modifies this`rows
      ensures Valid() && rows == old(rows) + if r.Rows? then r.rows else []
      ensures Sane(ViewOf(source)) && old(SaneRows(rows)) ==> SaneRows(rows)
    {
      hide Bijective, EntriesMarked, RowsMarked, AllWithin, ViewOf;
      if r.Rows? { Keep(r.rows, paths, source); }
    }

    method ClaimPaths(capture: nat, paths: seq<string>)
      requires Valid()
      modifies this`rows, dirty`changes, dirty`ordered, dirty`nextOrder, dirty`snapshots
      ensures Valid() && fresh(Rows() - old(Rows()))
      ensures old(Clean()) ==> Clean()
    {
      hide Bijective, EntriesMarked, RowsMarked, AllWithin, SetOf, ViewOf, SafePath, Distinct;
      if capture >= |captures| { return; }
      var r := dirty.Claim(captures[capture], paths);
      Select(r, paths, old(dirty.changes));
    }

    method ClaimRows(hints: seq<nat>)
      requires Valid()
      modifies this`rows, dirty`changes, dirty`ordered, dirty`nextOrder, dirty`snapshots
      ensures Valid() && fresh(Rows() - old(Rows()))
      ensures old(Clean()) ==> Clean()
    {
      hide Bijective, EntriesMarked, RowsMarked, AllWithin, SetOf, ViewOf, SafePath, Distinct, PathsOf;
      var named := Named(hints);
      ghost var paths := PathsOf(named);
      var r := dirty.ClaimHints(named);
      Select(r, paths, old(dirty.changes));
    }

    /** What `restore` puts back keeps each row's own watermark. */
    method PutBack(selected: seq<Row>)
      requires Valid()
      modifies dirty`changes, dirty`ordered, dirty`nextOrder
      ensures Valid()
      ensures old(Sane(dirty.View())) && SaneRows(selected) ==> Sane(dirty.View())
    {
      hide Bijective, EntriesMarked, RowsMarked, AllWithin, ViewOf, RestoredAll;
      ghost var hs := dirty.Provenance(selected);
      ghost var v := dirty.View();
      var ok;
      ghost var done;
      ok, done := dirty.Restore(selected);
      if Sane(v) && SaneRows(selected) {
        assert forall i | 0 <= i < done :: selected[i] in selected && hs[..done][i] == hs[i];
        RestoredAllIsSane(v, hs[..done]);
      }
    }

    method Replay(batch: seq<Change>)
      requires Valid()
      modifies dirty`changes, dirty`ordered, dirty`nextOrder
      ensures Valid()
      ensures old(Sane(dirty.View())) ==> Sane(dirty.View())
    {
      hide Bijective, EntriesMarked, RowsMarked, AllWithin, ViewOf, RestoredAll, SafePath;
      ghost var v := dirty.View();
      var ok;
      ghost var done;
      ok, done := dirty.RestoreJournal(batch);
      if Sane(v) && DirtyPathSet.Replayable(batch) {
        assert forall i | 0 <= i < done :: Proven(batch)[..done][i] == Proven(batch)[i];
        RestoredAllIsSane(v, Proven(batch)[..done]);
      }
    }

    method Note(addition: Addition)
      requires Valid()
      modifies dirty`changes, dirty`ordered, dirty`nextOrder
      ensures Valid()
      ensures old(Sane(dirty.View())) ==> Sane(dirty.View())
    {
      hide Bijective, EntriesMarked, RowsMarked, AllWithin, ViewOf;
      var ok := dirty.Add(addition);
    }

    method Snapshot()
      requires Valid()
      modifies this`captures, dirty`captures
      ensures Valid()
      ensures old(Clean()) ==> Clean()
    {
      hide Bijective, RowsMarked, AllWithin, ViewOf;
      var c := dirty.MakeCapture();
      captures := captures + [c];
    }

    /** One operation: the set stays valid, a retirement in flight stays as it is, and
        no watermark turns negative unless the caller wrote one. */
    method Perform(op: Operation)
      requires Valid()
      modifies this, Rows(), dirty`changes, dirty`ordered, dirty`nextOrder, dirty`snapshots, dirty`captures
      ensures Valid() && fresh(Rows() - old(Rows()))
      ensures Harmless(op) && old(Clean()) ==> Clean()
    {
      hide Bijective, EntriesMarked, RowsMarked, AllWithin, ViewOf, Sane, SaneCaptures;
      match op {
        case DoAdd(addition) => Note(addition);
        case DoTake => Look(true);
        case DoIterate => Look(false);
        case DoCapture => Snapshot();
        case DoReadCapture(capture, path) => ReadCapture(capture, path);
        case DoClaim(capture, paths) => ClaimPaths(capture, paths);
        case DoClaimHints(hints) => ClaimRows(hints);
        case DoRestore(hints) =>
          var named := Named(hints);
          PutBack(named);
        case DoRestoreForeign(change) =>
          var row := new Row(change);
          PutBack([row]);
        case DoRestoreJournal(batch) => Replay(batch);
        case DoOverwrite(row, change) =>
          if row < |rows| { rows[row].change := change; }
      }
    }

    method Run(ops: seq<Operation>)
      requires Valid()
      modifies this, Rows(), dirty`changes, dirty`ordered, dirty`nextOrder, dirty`snapshots, dirty`captures
      ensures Valid() && fresh(Rows() - old(Rows()))
      ensures (forall op | op in ops :: Harmless(op)) && old(Clean()) ==> Clean()
    {
      hide Bijective, EntriesMarked, RowsMarked, AllWithin, ViewOf, Sane, SaneRows, SaneCaptures, Harmless;
      for n := 0 to |ops|
        invariant Valid() && fresh(Rows() - old(Rows()))
        invariant (forall op | op in ops :: Harmless(op)) && old(Clean()) ==> Clean()
      {
        assert ops[n] in ops;
        Perform(ops[n]);
      }
    }

    /** A journal acknowledgement with any operations in between: what retires is
        exactly what a cut covered when it was captured and what is now, as an object,
        still that entry. */
    method CaptureRunCommit(cuts: seq<Cut>, ops: seq<Operation>) returns (valid: bool, ghost before: map<string, Slot>)
      requires Valid()
      modifies this, Rows(), dirty
      ensures Valid()
      ensures valid <==> DirtyPathSet.WellFormed(cuts)
      ensures valid ==> dirty.changes == before - Kept(old(dirty.changes), before, cuts)
      ensures valid ==> forall p | p in before && p !in dirty.changes ::
                          p in old(dirty.View()) && ViewOf(before)[p] == old(dirty.View())[p]
    {
      hide Bijective, EntriesMarked, RowsMarked, AllWithin, Sane, SaneRows, SaneCaptures,
           DirtyPathSet.WellFormed, Within, DirtyPathSet.StillCaptured, Size, WithinSome, Kept;
      var token := dirty.CaptureRetirement(cuts);
      before := dirty.changes;
      if token.None? { return false, before; }
      valid := true;
      ghost var candidates := dirty.retirement.value.candidates;
      Run(ops);
      before := dirty.changes;
      KeptAreCaptured(old(dirty.changes), before, candidates, cuts);
      var removed := dirty.CommitRetirement(token.value);
    }
  }

  /** Covered by a cut then, and still the same object now. */
  function Kept(past: map<string, Slot>, now: map<string, Slot>, cuts: seq<Cut>): set<string> {
    set p | p in now && p in past && now[p].entry == past[p].entry && InCut(cuts, p, past[p].entry)
  }

  lemma KeptAreCaptured(past: map<string, Slot>, now: map<string, Slot>, candidates: seq<Candidate>, cuts: seq<Cut>)
    requires DirtyPathSet.CandidatesFor(past, candidates, cuts)
    ensures DirtyPathSet.StillCaptured(now, candidates) == Kept(past, now, cuts)
    ensures forall p | p in Kept(past, now, cuts) :: p in ViewOf(past) && ViewOf(now)[p] == ViewOf(past)[p]
  {
    forall p | p in DirtyPathSet.StillCaptured(now, candidates)
      ensures p in Kept(past, now, cuts)
    {
      var c :| c in candidates && c.path == p && c.entry == now[p].entry;
      assert Cut(c.path, c.throughId) in cuts;
    }
    forall p | p in Kept(past, now, cuts)
      ensures p in DirtyPathSet.StillCaptured(now, candidates)
    {
      var k :| k in cuts && k.path == p && Within(past[p].entry, k.throughId);
      assert Candidate(k.path, past[k.path].entry, k.throughId) in candidates;
    }
  }

  /** After any history whose own rows carry no negative watermark, a failed push
      leaves what the adds alone would have left. */
  method FailedPush(ops: seq<Operation>, paths: seq<string>, additions: seq<Addition>)
    returns (s: Session, claimed: bool, ok: bool, ghost before: View)
    ensures (forall op | op in ops :: Harmless(op)) && claimed && ok ==> s.dirty.View() == AddedAll(before, additions)
    ensures claimed <==>
      |paths| <= CLAIM_LIMIT && Distinct(paths) && forall p | p in paths :: SafePath(p) && p in before
    ensures !claimed ==> s.dirty.View() == before
  {
    hide Bijective, EntriesMarked, RowsMarked, AllWithin, SaneRows, SaneCaptures, Sane, Harmless, AddedAll,
         RestoredAll, SafePath, SetOf, Distinct, Unsigned;
    s := new Session();
    s.Run(ops);
    before := s.dirty.View();
    if s.Clean() { SaneIsUnsigned(s.dirty.changes, paths); }
    var capture := s.dirty.MakeCapture();
    assert s.dirty.Current(s.dirty.captures[capture], paths) <==> forall p | p in paths :: p in before by {
      assert (forall p | p in paths :: p in before) ==> forall i | 0 <= i < |paths| :: paths[i] in before;
    }
    claimed, ok := s.dirty.ClaimAddRestore(capture, paths, additions);
  }

  /** One foreign row with watermark -1 is enough to break the law. */
  method ForeignRowBreaksTheLaw() returns (dirty: DirtyPathSet, ghost before: View, ghost additions: seq<Addition>)
    ensures dirty.Valid() && !Sane(before) && dirty.View() != AddedAll(before, additions)
  {
    hide Bijective, EntriesMarked, RowsMarked, AllWithin, AddedAll, RestoredAll, SafePath;
    var state := FileState(Modified, None, None, None);
    dirty := new DirtyPathSet();
    var row := new Row(Change("a", Some(-1), state));
    ghost var h := Held(row.change, None);
    assert dirty.Provenance([row]) == [h];
    RestoredOne(dirty.View(), h);
    var ok;
    ghost var done;
    ok, done := dirty.Restore([row]);
    before := dirty.View();
    assert before == map["a" := h];
    additions := PushBack(dirty, state, h);
  }

  /** The push that fails: claim, an add with watermark -1, restore. */
  method PushBack(dirty: DirtyPathSet, state: FileState, ghost h: Held) returns (ghost additions: seq<Addition>)
    requires dirty.Valid() && dirty.nextOrder <= 1
    requires h.change.path == "a" && h.change.state == state && !NonNegative(h.change.journalId) &&
      dirty.View() == map["a" := h]
    modifies dirty
    ensures dirty.Valid() && dirty.View() != AddedAll(old(dirty.View()), additions)
  {
    hide Bijective, EntriesMarked, RowsMarked, AllWithin, AddedAll, RestoredAll, SafePath;
    var a := Addition("a", state, Some(-1));
    additions := [a];
    NegativeIsLost(dirty.View(), [h], 0);
    SingleLetterPath();
    assert "a" in dirty.View() && Paths([h]) == SetOf(["a"]) && HeldAt(dirty.changes, ["a"]) == [h];
    var capture := dirty.MakeCapture();
    var claimed, ok := dirty.ClaimAddRestore(capture, ["a"], [a]);
  }
}
