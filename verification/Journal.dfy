/** The journal writer: a FIFO of requests, batches that share one durable
    commit, acknowledgements without effect left out of the log, compaction. */
module Journals {
  import opened Common
  import opened JournalKeys
  import JournalIndices
  import opened JournalLog

  const MAX_BATCH_REQUESTS := 256
  const ROWS_PER_PAGE := 256
  const COMPACT_AFTER_SEGMENTS := 128

  datatype Watermark = Watermark(path: string, throughId: nat)

  datatype Request =
    | LoadRequest
    | AppendRequest(entry: Entry)
    | BatchRequest(entries: seq<Entry>)
    | AckRequest(watermarks: seq<Watermark>, expectedEpoch: Option<nat>)
    | CompactRequest
    | ClearRequest
  {
    predicate Mutates() {
      AppendRequest? || BatchRequest? || AckRequest?
    }

    /** Unless the request names an epoch, it is not bound to one store. */
    predicate Owned(epoch: nat, nextId: nat) {
      AckRequest? && expectedEpoch.Some? ==>
        expectedEpoch.value == epoch && forall w | w in watermarks :: w.throughId < nextId
    }

    function Rows(): nat {
      if AckRequest? then |watermarks| else if BatchRequest? then |entries| else 1
    }

    /** A request for nothing is answered at once, even by a closing journal. */
    predicate Vacuous() {
      (BatchRequest? && entries == []) || (AckRequest? && watermarks == [] && expectedEpoch.None?)
    }

    /** What the public entry points validate before queueing. */
    predicate Admissible() {
      && (AppendRequest? ==> ValidEntry(entry.(id := 1)))
      && (BatchRequest? ==> 1 <= |entries| <= MAX_BATCH_REQUESTS && forall e | e in entries :: ValidEntry(e.(id := 1)))
      && (AckRequest? ==> forall w | w in watermarks :: JournalIndices.ValidWatermark(w.path, w.throughId))
    }
  }

  /** How a store transaction ended: durably, without a trace, or durably
      although the writer was told it failed. */
  datatype Fate = Durable | Lost | Uncertain

  // ------------------------------------------------------------ serial meaning

  function Appends(entries: seq<Entry>, nextId: nat): seq<Operation> {
    if entries == [] then []
    else [Append(entries[0].(id := nextId))] + Appends(entries[1..], nextId + 1)
  }

  function AckOps(ws: seq<Watermark>): seq<Operation> {
    seq(|ws|, i requires 0 <= i < |ws| => Ack(ws[i].path, ws[i].throughId))
  }

  /** The operations one request stands for when the next generation is `nextId`. */
  function Operations(r: Request, nextId: nat): seq<Operation> {
    match r
    case AppendRequest(e) => Appends([e], nextId)
    case BatchRequest(es) => Appends(es, nextId)
    case AckRequest(ws, _) => AckOps(ws)
    case _ => []
  }

  /** One request on its own, with every operation logged. */
  ghost function Serve(st: State, r: Request): (n: Result<State, JournalIndices.Fault>)
    requires JournalIndices.Agree(st.index)
    ensures n.Ok? ==> JournalIndices.Agree(n.value.index)
  {
    if r.ClearRequest? then
      JournalIndices.EmptyAgrees();
      Ok(State(JournalIndices.EMPTY, st.nextId))
    else Replay(st, Operations(r, st.nextId))
  }

  /** Requests one after the other, no batching and no compaction. */
  ghost function Serial(st: State, rs: seq<Request>): (n: Result<State, JournalIndices.Fault>)
    requires JournalIndices.Agree(st.index)
    ensures n.Ok? ==> JournalIndices.Agree(n.value.index)
  {
    if rs == [] then Ok(st)
    else
      var before := Serial(st, rs[..|rs| - 1]);
      if before.Err? then before else Serve(before.value, rs[|rs| - 1])
  }

  lemma {:induction false} SerialSplit(st: State, a: seq<Request>, b: seq<Request>)
    requires JournalIndices.Agree(st.index) && Serial(st, a).Ok?
    ensures Serial(st, a + b) == Serial(Serial(st, a).value, b)
  {
    hide JournalIndices.Agree, Serve;
    if b == [] {
      assert a + b == a;
    } else {
      assert (a + b)[..|a + b| - 1] == a + b[..|b| - 1];
      SerialSplit(st, a, b[..|b| - 1]);
    }
  }

  lemma SerialOne(st: State, rs: seq<Request>, r: Request)
    requires JournalIndices.Agree(st.index) && Serial(st, rs).Ok?
    ensures Serial(st, rs + [r]) == Serve(Serial(st, rs).value, r)
  {
    hide JournalIndices.Agree, Serve;
    assert (rs + [r])[..|rs|] == rs;
  }

  lemma {:induction false} SerialFails(st: State, rs: seq<Request>, n: nat)
    requires JournalIndices.Agree(st.index) && n <= |rs| && Serial(st, rs[..n]).Err?
    ensures Serial(st, rs).Err?
  {
    hide JournalIndices.Agree, Serve;
    if n < |rs| {
      assert rs[..|rs| - 1][..n] == rs[..n];
      SerialFails(st, rs[..|rs| - 1], n);
    } else {
      assert rs[..n] == rs;
    }
  }

  /** The generation counter at the last clear, and every operation since then,
      effective or not. */
  ghost function History(rs: seq<Request>): (nat, seq<Operation>)
    requires Serial(Blank(1), rs).Ok?
  {
    if rs == [] then (1, [])
    else
      var n := |rs| - 1;
      var st := Serial(Blank(1), rs[..n]).value;
      if rs[n].ClearRequest? then (st.nextId, [])
      else (History(rs[..n]).0, History(rs[..n]).1 + Operations(rs[n], st.nextId))
  }

  /** The state after any requests is the meaning of the log since the last clear. */
  lemma {:induction false} SerialMeansLog(rs: seq<Request>)
    requires Serial(Blank(1), rs).Ok?
    ensures Sound(Serial(Blank(1), rs).value) && 1 <= History(rs).0 <= MAX_SAFE_INTEGER
    ensures Serial(Blank(1), rs) == Replay(Blank(History(rs).0), History(rs).1)
    ensures Means(Serial(Blank(1), rs).value, Entries(History(rs).1), AcksOf(History(rs).1))
  {
    hide JournalIndices.Agree, JournalLog.Apply, Means;
    if rs != [] {
      var n := |rs| - 1;
      SerialMeansLog(rs[..n]);
      if !rs[n].ClearRequest? {
        ReplaySplit(Blank(History(rs[..n]).0), History(rs[..n]).1,
                    Operations(rs[n], Serial(Blank(1), rs[..n]).value.nextId));
      }
    }
    RunMeansLog(History(rs).0, History(rs).1);
  }

  /** No row of the log leaves the state it finds. */
  ghost predicate Effective(st: State, ops: seq<Operation>)
    requires JournalIndices.Agree(st.index)
  {
    ops == [] || (Effective(st, ops[..|ops| - 1]) && Replay(st, ops[..|ops| - 1]) != Replay(st, ops))
  }

  /** Nothing in the queue is bound to fail. */
  ghost predicate Servable(st: State, epoch: nat, rs: seq<Request>)
    requires JournalIndices.Agree(st.index)
  {
    Serial(st, rs).Ok? && forall r | r in rs :: r.Owned(epoch, st.nextId)
  }

  lemma ServablePart(st: State, epoch: nat, a: seq<Request>, b: seq<Request>, c: seq<Request>, now: nat)
    requires JournalIndices.Agree(st.index) && Servable(st, epoch, a + (b + c)) && now >= st.nextId
    ensures Serial(st, a).Ok? && Serial(Serial(st, a).value, b).Ok?
    ensures forall r | r in b :: r.Owned(epoch, now)
  {
    hide JournalIndices.Agree, Serve;
    var all := a + (b + c);
    assert all[..|a|] == a && all[..|a + b|] == a + b;
    if Serial(st, a).Err? { SerialFails(st, all, |a|); }
    if Serial(st, a + b).Err? { SerialFails(st, all, |a + b|); }
    SerialSplit(st, a, b);
    assert forall r | r in b :: r in all;
  }

  /** The generations of the appended rows, in log order. */
  function IdsOf(ops: seq<Operation>): seq<nat> {
    if ops == [] then []
    else IdsOf(ops[..|ops| - 1]) + if ops[|ops| - 1].Append? then [ops[|ops| - 1].entry.id] else []
  }

  lemma {:induction false} IdsOfSplit(a: seq<Operation>, b: seq<Operation>)
    ensures IdsOf(a + b) == IdsOf(a) + IdsOf(b)
  {
    if b == [] {
      assert a + b == a;
    } else {
      assert (a + b)[..|a + b| - 1] == a + b[..|b| - 1];
      IdsOfSplit(a, b[..|b| - 1]);
    }
  }

  predicate Increasing(ids: seq<nat>) {
    forall i, j | 0 <= i < j < |ids| :: ids[i] < ids[j]
  }

  // -------------------------------------------------------------- the writer

  /** What has become of the requests that arrived. */
  datatype Account = Account(
    origin: State, arrived: seq<Request>, taken: seq<Request>, stored: seq<Request>, resolved: seq<Request>,
    rejected: bool)

  /** The durable state is that of serving some of the requests taken so far one by
      one in their order: all that were resolved, and every one unless some were
      rejected. The others still wait. */
  ghost predicate Balanced(a: Account, durable: State, queue: seq<Request>, writable: bool) {
    && Sound(a.origin) && a.taken + queue == a.arrived && Serial(a.origin, a.stored) == Ok(durable)
    && Subsequence(a.resolved, a.stored) && Subsequence(a.stored, a.taken)
    && (!a.rejected ==> a.resolved == a.stored == a.taken && (a.taken != [] ==> writable))
    && durable.nextId >= a.origin.nextId
  }

  lemma NothingTaken(st: State, queue: seq<Request>, writable: bool)
    requires Sound(st)
    ensures Balanced(Account(st, queue, [], [], [], false), st, queue, writable)
  {
    hide JournalIndices.Agree;
    assert [] + queue == queue;
  }

  lemma BalancedMeans(a: Account, durable: State, queue: seq<Request>, writable: bool)
    requires Balanced(a, durable, queue, writable)
    ensures !a.rejected && a.taken != [] ==> writable
    ensures queue == [] ==> a.taken == a.arrived
  {
    hide Serial, Subsequence, Sound;
  }

  datatype Reply = Queued | Answered | TurnedAway

  function ReplyTo(r: Request, closing: bool): Reply {
    if r.Vacuous() then Answered else if !closing && r.Admissible() then Queued else TurnedAway
  }

  /** The requests that a journal queues. */
  function Accepted(rs: seq<Request>, closing: bool): seq<Request> {
    if rs == [] then []
    else
      var rest, last := Accepted(rs[..|rs| - 1], closing), rs[|rs| - 1];
      if ReplyTo(last, closing).Queued? then rest + [last] else rest
  }

  /** Those that arrived during the first `turns` turns. */
  function Arrived(arrivals: seq<seq<Request>>, turns: nat, closing: bool): seq<Request> {
    if turns == 0 then []
    else Arrived(arrivals, turns - 1, closing) +
         (if turns <= |arrivals| then Accepted(arrivals[turns - 1], closing) else [])
  }

  lemma NothingIn(arrivals: seq<seq<Request>>, closing: bool, queue: seq<Request>)
    ensures Accepted([], closing) == [] && queue + Arrived(arrivals, 0, closing) == queue
  {
  }

  lemma ArrivesNext(arrivals: seq<seq<Request>>, turns: nat, closing: bool, queue: seq<Request>)
    ensures var rs := if turns < |arrivals| then arrivals[turns] else [];
      queue + Arrived(arrivals, turns + 1, closing) == queue + Arrived(arrivals, turns, closing) + Accepted(rs, closing)
  {
    assert turns >= |arrivals| ==> Accepted([], closing) == [];
  }

  lemma {:induction false} NothingAccepted(rs: seq<Request>)
    ensures Accepted(rs, true) == []
  {
    if rs != [] { NothingAccepted(rs[..|rs| - 1]); }
  }

  lemma {:induction false} NothingArrives(arrivals: seq<seq<Request>>, turns: nat)
    ensures Arrived(arrivals, turns, true) == []
  {
    if turns > 0 {
      NothingArrives(arrivals, turns - 1);
      if turns <= |arrivals| { NothingAccepted(arrivals[turns - 1]); }
    }
  }

  /** What is not servable does not become so by later requests. */
  lemma ServableFront(st: State, epoch: nat, a: seq<Request>, b: seq<Request>)
    requires JournalIndices.Agree(st.index)
    ensures Servable(st, epoch, a + b) ==> Servable(st, epoch, a)
  {
    hide JournalIndices.Agree, Serve;
    assert (a + b)[..|a|] == a;
    if Serial(st, a).Err? { SerialFails(st, a + b, |a|); }
    assert forall r | r in a :: r in a + b;
  }

  lemma Regrouped(served: seq<Request>, requests: seq<Request>, rest: seq<Request>, before: seq<Request>)
    requires before == requests + rest
    ensures served + before == (served + requests) + rest
    ensures (forall r | r in requests :: r in before) && (forall r | r in rest :: r in before)
  {
  }

  class ObsetyncJournal {
    var index: JournalIndices.JournalIndex
    var nextId: nat
    var writable: bool
    var queue: seq<Request>
    var closing: bool
    var store: Store
    /** Every generation handed to a caller, in order. */
    var issued: seq<nat>

    /** What a reload would recover right now. */
    ghost function Recoverable(): Result<State, JournalIndices.Fault>
      reads this
    {
      Load(store)
    }

    /** The store always loads; while writable, it loads the published state. */
    ghost predicate Valid()
      reads this
    {
      && Recoverable().Ok?
      && (writable ==> Recoverable() == Ok(State(index, nextId)))
      && Increasing(issued)
      && (forall i | 0 <= i < |issued| :: issued[i] < Recoverable().value.nextId)
      && (forall r | r in queue :: r.Admissible())
    }

    constructor (store: Store)
      requires Load(store).Ok?
      ensures Valid() && !writable && !closing && queue == [] && issued == [] && this.store == store
    {
      index, nextId, writable, closing := JournalIndices.EMPTY, 1, false, false;
      queue, issued := [], [];
      this.store := store;
    }

    method Enqueue(r: Request) returns (reply: Reply)
      requires Valid()
      modifies this`queue
      ensures Valid()
      ensures reply.Answered? <==> r.Vacuous()
      ensures reply.Queued? <==> !r.Vacuous() && !closing && r.Admissible()
      ensures queue == if reply.Queued? then old(queue) + [r] else old(queue)
    {
      if r.Vacuous() { return Answered; }
      if closing || !r.Admissible() { return TurnedAway; }
      queue := queue + [r];
      return Queued;
    }

    /** Requests that arrive while a batch is in flight. */
    method EnqueueAll(rs: seq<Request>)
      requires Valid()
      modifies this`queue
      ensures Valid() && queue == old(queue) + Accepted(rs, closing)
    {
      hide JournalLog.Load, Request.Admissible;
      for i := 0 to |rs|
        invariant Valid() && queue == old(queue) + Accepted(rs[..i], closing)
      {
        assert rs[..i + 1][..i] == rs[..i];
        var reply := Enqueue(rs[i]);
      }
      assert rs[..|rs|] == rs;
    }

    /** `loadInsideQueue` on a present store. */
    method LoadInsideQueue()
      requires Valid()
      modifies this`index, this`nextId, this`writable
      ensures Valid() && writable
    {
      hide JournalLog.Load;
      writable := false;
      var state := LoadStore(store);
      index, nextId, writable := state.value.index, state.value.nextId, true;
    }

    /** Replace the log by a snapshot of `captured`; the old store survives a lost
        transaction. */
    method Snapshot(captured: JournalIndices.JournalIndex, fate: Fate) returns (ok: bool)
      requires Valid() && writable
      requires captured == index || captured == JournalIndices.EMPTY
      modifies this`store
      ensures ok <==> fate.Durable?
      ensures store.epoch == old(store.epoch)
      ensures if fate.Lost? then store == old(store)
              else Load(store) == Ok(State(captured, nextId)) && store.wal == [] && store.segments == 0
    {
      LoadIsSound(store);
      JournalIndices.EmptyAgrees();
      var rows := Records(captured);
      SnapshotRoundTrip(rows, captured, nextId);
      if !fate.Lost? {
        store := Store(store.epoch, nextId, rows, [], 0);
      }
      ok := fate.Durable?;
    }

    /** An owned acknowledgement must name this store and issued generations only. */
    predicate Refused(r: Request)
      reads this
    {
      !r.Owned(store.epoch, nextId)
    }

    static method AssignAppends(st: State, entries: seq<Entry>)
      returns (r: Result<State, JournalIndices.Fault>, ops: seq<Operation>)
      requires Sound(st) && forall e | e in entries :: ValidEntry(e.(id := 1))
      ensures r == Replay(st, Appends(entries, st.nextId))
      ensures r.Ok? ==> ops == Appends(entries, st.nextId) && Sound(r.value)
      ensures r.Ok? ==> IdsOf(ops) == seq(|entries|, i => st.nextId + i)
      ensures r.Ok? ==> r.value.nextId == st.nextId + |entries|
      ensures r.Ok? <==> st.nextId + |entries| <= MAX_SAFE_INTEGER
    {
      hide JournalLog.Apply, JournalIndices.Agree, ValidEntry;
      var state := st;
      ops := [];
      for i := 0 to |entries|
        invariant ops == Appends(entries[..i], st.nextId) && |ops| == i
        invariant Replay(st, ops) == Ok(state) && Sound(state) && state.nextId == st.nextId + i
      {
        var entry := entries[i].(id := state.nextId);
        assert entries[i] in entries;
        AppendsGrow(entries, st.nextId, i);
        ReplayOne(st, ops, Append(entry));
        NextAppend(state, entries[i]);
        var next := ApplyOperation(state, Append(entry));
        if next.Err? {
          AppendsPrefix(entries, st.nextId, i + 1);
          ReplayFails(st, Appends(entries, st.nextId), i + 1);
          return Err(next.error), [];
        }
        ops := ops + [Append(entry)];
        state := next.value;
      }
      assert entries[..|entries|] == entries;
      AppendsIds(entries, st.nextId, |entries|);
      return Ok(state), ops;
    }

    /** Acknowledge one request's watermarks; `ops` keeps only those that changed
        the index or the next generation. */
    static method EffectiveAcks(st: State, ws: seq<Watermark>) returns (state: State, ops: seq<Operation>)
      requires Sound(st) && forall w | w in ws :: JournalIndices.ValidWatermark(w.path, w.throughId)
      ensures Replay(st, AckOps(ws)) == Ok(state) && Sound(state)
      ensures Replay(st, ops) == Ok(state) && IdsOf(ops) == []
      ensures Effective(st, ops)
      ensures state.nextId >= st.nextId
    {
      hide JournalLog.Apply, JournalIndices.Agree, ValidEntry;
      state := st;
      ops := [];
      for i := 0 to |ws|
        invariant Sound(state) && state.nextId >= st.nextId
        invariant Replay(st, AckOps(ws[..i])) == Ok(state)
        invariant Replay(st, ops) == Ok(state) && IdsOf(ops) == []
        invariant Effective(st, ops)
      {
        var op := Ack(ws[i].path, ws[i].throughId);
        assert ws[i] in ws;
        assert AckOps(ws[..i + 1]) == AckOps(ws[..i]) + [op];
        ReplayOne(st, AckOps(ws[..i]), op);
        ReplayOne(st, ops, op);
        NextAck(state, ws[i]);
        var next := ApplyOperation(state, op);
        if next.value != state {
          assert (ops + [op])[..|ops|] == ops;
          ops := ops + [op];
        }
        state := next.value;
      }
      assert ws[..|ws|] == ws;
    }

    /** One request inside a batch: the log rows it contributes, and the
        generations its caller will be told. */
    static method Prepare(st: State, r: Request)
      returns (next: Result<State, JournalIndices.Fault>, ops: seq<Operation>, ids: seq<nat>)
      requires Sound(st) && r.Mutates() && r.Admissible()
      ensures next == Serve(st, r)
      ensures next.Ok? ==> Sound(next.value) && next.value.nextId >= st.nextId
      ensures next.Ok? ==> Replay(st, ops) == next && ids == IdsOf(ops)
      ensures next.Ok? ==> Increasing(ids) && forall i | 0 <= i < |ids| :: st.nextId <= ids[i] < next.value.nextId
      ensures next.Ok? && !r.AckRequest? ==> |ids| == r.Rows()
    {
      if r.AckRequest? {
        var state;
        state, ops := EffectiveAcks(st, r.watermarks);
        return Ok(state), ops, [];
      }
      var source := if r.AppendRequest? then [r.entry] else r.entries;
      next, ops := AssignAppends(st, source);
      ids := seq(|source|, i => st.nextId + i);
    }

    /** The candidate state of a whole batch, and the log rows that rebuild it. */
    static method PrepareAll(start: State, requests: seq<Request>)
      returns (next: Result<State, JournalIndices.Fault>, rows: seq<Operation>, ids: seq<nat>)
      requires Sound(start)
      requires forall r | r in requests :: r.Mutates() && r.Admissible()
      ensures next.Err? <==> Serial(start, requests).Err?
      ensures next.Ok? ==> Serial(start, requests) == next && Replay(start, rows) == next && ids == IdsOf(rows)
      ensures next.Ok? ==> Sound(next.value) && next.value.nextId >= start.nextId
      ensures next.Ok? ==> Increasing(ids) && forall i | 0 <= i < |ids| :: start.nextId <= ids[i] < next.value.nextId
    {
      hide Serve, JournalIndices.Agree, JournalLog.Apply;
      var state := start;
      rows, ids := [], [];
      for i := 0 to |requests|
        invariant Sound(state) && state.nextId >= start.nextId
        invariant Serial(start, requests[..i]) == Ok(state)
        invariant Replay(start, rows) == Ok(state) && ids == IdsOf(rows)
        invariant Increasing(ids) && forall j | 0 <= j < |ids| :: start.nextId <= ids[j] < state.nextId
      {
        assert requests[i] in requests;
        assert requests[..i + 1] == requests[..i] + [requests[i]];
        SerialOne(start, requests[..i], requests[i]);
        var more, ops, granted := Prepare(state, requests[i]);
        if more.Err? {
          SerialFails(start, requests, i + 1);
          return more, [], [];
        }
        ReplaySplit(start, rows, ops);
        IdsOfSplit(rows, ops);
        state, rows, ids := more.value, rows + ops, ids + granted;
      }
      assert requests[..|requests|] == requests;
      return Ok(state), rows, ids;
    }

    method NoneRefused(requests: seq<Request>) returns (admitted: bool)
      requires Valid()
      ensures admitted <==> forall r | r in requests :: !Refused(r)
    {
      hide JournalLog.Load, Serve, JournalIndices.Agree, Refused;
      for i := 0 to |requests|
        invariant forall j | 0 <= j < i :: !Refused(requests[j])
      {
        if Refused(requests[i]) { return false; }
      }
      return true;
    }

    /** `mutateInsideQueue`: all requests of the batch, or none. */
    method MutateInsideQueue(requests: seq<Request>, compaction: Fate, commit: Fate)
      returns (ok: bool, ghost rows: seq<Operation>)
      requires Valid()
      requires forall r | r in requests :: r.Mutates() && r.Admissible()
      modifies this`index, this`nextId, this`store, this`issued
      ensures ok <==>
              && writable && (forall r | r in requests :: !old(Refused(r)))
              && (old(store.segments) >= COMPACT_AFTER_SEGMENTS ==> compaction.Durable?) && commit.Durable?
              && Serial(old(Load(store)).value, requests).Ok?
      ensures ok ==> Load(store) == Ok(State(index, nextId))
      ensures ok ==> Serial(old(Load(store)).value, requests) == Ok(State(index, nextId))
      ensures ok ==>
        |rows| <= |store.wal| && rows == store.wal[|store.wal| - |rows|..] && issued == old(issued) + IdsOf(rows)
      ensures store.epoch == old(store.epoch)
      ensures !ok ==> (index, nextId, issued) == old((index, nextId, issued)) && Load(store).Ok?
      ensures !ok ==> Load(store) == old(Load(store)) ||
                      Load(store) == Serial(old(Load(store)).value, requests)
      ensures Load(store).value.nextId >= old(Load(store)).value.nextId
      ensures Increasing(issued) && forall i | 0 <= i < |issued| :: issued[i] < Load(store).value.nextId
      ensures old(issued) <= issued
    {
      hide JournalLog.Load, Serve, JournalIndices.Agree, Refused, Serial, IdsOf, Replay;
      if !writable { return false, []; }
      LoadIsSound(store);
      var admitted := NoneRefused(requests);
      if !admitted { return false, []; }
      if store.segments >= COMPACT_AFTER_SEGMENTS {
        var compacted := Snapshot(index, compaction);
        if !compacted { return false, []; }
      }
      var next, ops, ids := PrepareAll(State(index, nextId), requests);
      if next.Err? { return false, []; }
      if !commit.Lost? {
        WalExtends(store, ops);
        store := store.(wal := store.wal + ops, segments := store.segments + 1);
      }
      if !commit.Durable? { return false, []; }
      index, nextId, issued := next.value.index, next.value.nextId, issued + ids;
      return true, ops;
    }

    /** Take one batch: a lone control request, or adjacent mutations within the
        request and row limits. */
    method TakeBatch() returns (requests: seq<Request>)
      requires queue != []
      modifies this`queue
      ensures requests != [] && requests + queue == old(queue)
      ensures |requests| == 1 || forall r | r in requests :: r.Mutates()
      ensures |requests| <= MAX_BATCH_REQUESTS
      ensures |requests| == 1 || TotalRows(requests) <= ROWS_PER_PAGE
      ensures requests[0].Mutates() && queue != [] && queue[0].Mutates() ==>
              |requests| == MAX_BATCH_REQUESTS || TotalRows(requests) + queue[0].Rows() > ROWS_PER_PAGE
    {
      hide TotalRows, Request.Rows, Request.Mutates;
      requests := [queue[0]];
      queue := queue[1..];
      RowsOfMore([], requests[0]);
      if requests[0].Mutates() {
        var rows := requests[0].Rows();
        while queue != [] && |requests| < MAX_BATCH_REQUESTS && queue[0].Mutates()
          invariant 1 <= |requests| <= MAX_BATCH_REQUESTS && requests + queue == old(queue)
          invariant forall r | r in requests :: r.Mutates()
          invariant rows == TotalRows(requests) && (|requests| == 1 || rows <= ROWS_PER_PAGE)
          decreases |queue|
        {
          if rows + queue[0].Rows() > ROWS_PER_PAGE { break; }
          rows := rows + queue[0].Rows();
          RowsOfMore(requests, queue[0]);
          requests := requests + [queue[0]];
          queue := queue[1..];
        }
      }
    }

    /** One turn of the drain loop: a batch is taken, served and, if it fails,
        closes the journal until it is loaded again. Either way it is stored as a
        whole or not at all. */
    method DrainOne(first: Fate, second: Fate, ghost origin: State, ghost stored: seq<Request>)
      returns (ok: bool, ghost requests: seq<Request>, ghost kept: seq<Request>)
      requires Valid() && queue != [] && Sound(origin) && Serial(origin, stored) == Load(store)
      requires Load(store).value.nextId >= origin.nextId
      modifies this`index, this`nextId, this`writable, this`queue, this`store, this`issued
      ensures Valid() && requests != [] && requests + queue == old(queue) && (writable <==> ok)
      ensures (kept == requests || kept == []) && (ok ==> kept == requests)
      ensures Serial(origin, stored + kept) == Load(store)
      ensures (&& first.Durable? && second.Durable? && (old(writable) || old(queue)[0].LoadRequest?)
               && Servable(origin, old(store.epoch), stored + old(queue))) ==> ok
      ensures store.epoch == old(store.epoch) && old(issued) <= issued
      ensures Load(store).value.nextId >= old(Load(store)).value.nextId
    {
      hide JournalLog.Load, Serve, Serial, JournalIndices.Agree, Servable, Bounded, Request.Admissible, Request.Owned,
           Request.Mutates, Request.Rows, TotalRows, Increasing;
      ghost var before := queue;
      LoadIsSound(store);
      var batch := TakeBatch();
      requests := batch;
      Regrouped(stored, batch, queue, before);
      if Servable(origin, store.epoch, stored + before) {
        ServablePart(origin, store.epoch, stored, batch, queue, Load(store).value.nextId);
      }
      SerialSplit(origin, stored, batch);
      ghost var loaded := Load(store);
      ok := ServeBatch(batch, first, second);
      kept := if ok || Load(store) != loaded then batch else [];
      assert stored + [] == stored;
      if !ok { writable := false; }
    }

    /** One turn of the loop, accounted for. */
    method Turn(first: Fate, second: Fate, ghost a: Account) returns (ok: bool, ghost b: Account)
      requires Valid() && Balanced(a, Load(store).value, queue, writable) && queue != []
      modifies this`index, this`nextId, this`writable, this`queue, this`store, this`issued
      ensures Valid() && Balanced(b, Load(store).value, queue, writable) && |queue| < |old(queue)|
      ensures b.origin == a.origin && b.arrived == a.arrived && b.taken != [] && b.rejected == (a.rejected || !ok)
      ensures (&& !a.rejected && first.Durable? && second.Durable? && (old(writable) || old(queue)[0].LoadRequest?)
               && Servable(a.origin, old(store.epoch), a.arrived)) ==> ok
      ensures store.epoch == old(store.epoch) && old(issued) <= issued
      ensures Load(store).value.nextId >= old(Load(store)).value.nextId
    {
      hide JournalLog.Load, Serve, JournalIndices.Agree, Servable, Bounded, Request.Admissible, Increasing, Subsequence;
      ghost var requests, kept;
      ghost var before := queue;
      ok, requests, kept := DrainOne(first, second, a.origin, a.stored);
      Regrouped(a.taken, requests, queue, before);
      Lengthened(a.stored, a.taken, kept, requests);
      Lengthened(a.resolved, a.stored, if ok then requests else [], kept);
      assert a.resolved + [] == a.resolved;
      b := Account(a.origin, a.arrived, a.taken + requests, a.stored + kept,
                   if ok then a.resolved + requests else a.resolved, a.rejected || !ok);
    }

    /** The same while requests arrive. */
    method BusyTurn(first: Fate, second: Fate, rs: seq<Request>, ghost a: Account) returns (ok: bool, ghost b: Account)
      requires Valid() && Balanced(a, Load(store).value, queue, writable) && queue != []
      modifies this`index, this`nextId, this`writable, this`queue, this`store, this`issued
      ensures Valid() && Balanced(b, Load(store).value, queue, writable) &&
        |queue| < |old(queue)| + |Accepted(rs, closing)|
      ensures b.origin == a.origin && b.arrived == a.arrived + Accepted(rs, closing) && b.taken != []
      ensures b.rejected == (a.rejected || !ok)
      ensures (&& !a.rejected && first.Durable? && second.Durable? && (old(writable) || old(queue)[0].LoadRequest?)
               && Servable(a.origin, old(store.epoch), b.arrived)) ==> ok
      ensures Servable(a.origin, old(store.epoch), b.arrived) ==> Servable(a.origin, old(store.epoch), a.arrived)
      ensures store.epoch == old(store.epoch) && old(issued) <= issued
    {
      hide JournalLog.Load, Serve, JournalIndices.Agree, Servable, Bounded, Request.Admissible, Increasing,
           Subsequence, Accepted, Serial;
      ServableFront(a.origin, store.epoch, a.arrived, Accepted(rs, closing));
      ghost var mid;
      ok, mid := Turn(first, second, a);
      ghost var waiting := queue;
      EnqueueAll(rs);
      assert mid.taken + queue == (mid.taken + waiting) + Accepted(rs, closing);
      b := mid.(arrived := mid.arrived + Accepted(rs, closing));
    }

    /** `drain`: turns until nothing waits, while `arrivals[n]` arrive during turn `n`.
        Whatever the store does, whenever requests arrive and however they therefore
        fall into batches, the books balance with nothing left waiting. */
    method Drain(fates: nat -> Fate, arrivals: seq<seq<Request>>) returns (ghost turns: nat, ghost a: Account)
      requires Valid()
      modifies this`index, this`nextId, this`writable, this`queue, this`store, this`issued
      ensures Valid() && queue == [] && Balanced(a, Load(store).value, queue, writable)
      ensures a.origin == old(Load(store)).value && a.arrived == old(queue) + Arrived(arrivals, turns, closing)
      ensures !a.rejected && a.arrived != [] ==> writable
      ensures (&& (forall n :: fates(n).Durable?)
               && (old(writable) || (old(queue) != [] && old(queue)[0].LoadRequest?))
               && Servable(a.origin, old(store.epoch), a.arrived)) ==> !a.rejected
      ensures store.epoch == old(store.epoch) && old(issued) <= issued
    {
      hide JournalLog.Load, JournalIndices.Agree, Servable, Request.Admissible, Increasing, Accepted, Balanced,
           Arrived, Sound, Serial, Subsequence;
      LoadIsSound(store);
      NothingIn(arrivals, closing, queue);
      NothingTaken(Load(store).value, queue, writable);
      a := Account(Load(store).value, queue, [], [], [], false);
      ghost var willing := (forall n :: fates(n).Durable?) && (writable || (queue != [] && queue[0].LoadRequest?));
      var clock := 0;
      turns := 0;
      while queue != []
        invariant Valid() && Balanced(a, Load(store).value, queue, writable) && turns == clock &&
          store.epoch == old(store.epoch)
        invariant a.origin == old(Load(store)).value && a.arrived == old(queue) + Arrived(arrivals, turns, closing)
        invariant a.taken == [] ==> writable == old(writable) && !a.rejected && queue == old(queue)
        invariant willing && a.rejected ==> !Servable(a.origin, old(store.epoch), a.arrived)
        invariant old(issued) <= issued
        decreases if clock < |arrivals| then |arrivals| - clock else 0, |queue|
      {
        var ok;
        var rs := if clock < |arrivals| then arrivals[clock] else [];
        BalancedMeans(a, Load(store).value, queue, writable);
        ArrivesNext(arrivals, turns, closing, old(queue));
        ok, a := BusyTurn(fates(2 * clock), fates(2 * clock + 1), rs, a);
        clock, turns := clock + 1, turns + 1;
      }
      BalancedMeans(a, Load(store).value, queue, writable);
    }

    /** `closeAndDrain`: no request is accepted any more, those that wait are served,
        and the journal is closed for good. */
    method CloseAndDrain(fates: nat -> Fate, arrivals: seq<seq<Request>>) returns (ghost a: Account)
      requires Valid()
      modifies this`index, this`nextId, this`writable, this`queue, this`closing, this`store, this`issued
      ensures Valid() && closing && !writable && queue == []
      ensures a.origin == old(Load(store)).value && a.arrived == a.taken == old(queue)
      ensures Serial(a.origin, a.stored) == Load(store) && Subsequence(a.resolved, a.stored) &&
        Subsequence(a.stored, a.taken)
      ensures !a.rejected ==> a.resolved == a.stored == a.taken
    {
      hide JournalLog.Load, Serve, JournalIndices.Agree, Servable, Bounded, Request.Admissible, Increasing, Subsequence;
      closing := true;
      ghost var turns;
      turns, a := Drain(fates, arrivals);
      NothingArrives(arrivals, turns);
      BalancedMeans(a, Load(store).value, queue, writable);
      assert old(queue) + [] == old(queue) && a.taken + [] == a.taken;
      writable := false;
    }

    /** The body of the drain loop for one batch. */
    method ServeBatch(requests: seq<Request>, first: Fate, second: Fate) returns (ok: bool)
      requires Valid() && requests != []
      requires forall r | r in requests :: r.Admissible()
      requires |requests| == 1 || forall r | r in requests :: r.Mutates()
      modifies this`index, this`nextId, this`writable, this`store, this`issued
      ensures Load(store).Ok? && Load(store).value.nextId >= old(Load(store)).value.nextId
      ensures ok ==> Valid() && writable && Serial(old(Load(store)).value, requests) == Load(store)
      ensures Load(store) == old(Load(store)) || Load(store) == Serial(old(Load(store)).value, requests)
      ensures (&& first.Durable? && second.Durable? && (old(writable) || requests[0].LoadRequest?)
               && Serial(old(Load(store)).value, requests).Ok?
               && (forall r | r in requests :: r.Owned(old(store.epoch), old(Load(store)).value.nextId))) ==> ok
      ensures store.epoch == old(store.epoch)
      ensures Increasing(issued) && forall i | 0 <= i < |issued| :: issued[i] < Load(store).value.nextId
      ensures old(issued) <= issued
    {
      hide JournalLog.Load, JournalIndices.Agree;
      LoadIsSound(store);
      JournalIndices.EmptyAgrees();
      var control := requests[0];
      if !control.Mutates() {
        assert requests == [] + [control];
        SerialOne(Load(store).value, [], control);
      }
      if control.LoadRequest? {
        LoadInsideQueue();
        return true;
      } else if control.CompactRequest? || control.ClearRequest? {
        if !writable { return false; }
        var captured := if control.ClearRequest? then JournalIndices.EMPTY else index;
        ok := Snapshot(captured, first);
        if ok { index := captured; }
      } else {
        assert forall r | r in requests :: r.Mutates();
        ghost var rows;
        ok, rows := MutateInsideQueue(requests, first, second);
      }
    }
  }

  /** All of `a` occurs in `b`, in the same order. */
  ghost predicate Subsequence(a: seq<Request>, b: seq<Request>) {
    a == [] ||
    (b != [] && (Subsequence(a, b[..|b| - 1]) ||
                 (a[|a| - 1] == b[|b| - 1] && Subsequence(a[..|a| - 1], b[..|b| - 1]))))
  }

  lemma {:induction false} SubsequenceSkips(a: seq<Request>, b: seq<Request>, c: seq<Request>)
    requires Subsequence(a, b)
    ensures Subsequence(a, b + c)
  {
    if c == [] {
      assert b + c == b;
    } else {
      assert (b + c)[..|b + c| - 1] == b + c[..|c| - 1];
      SubsequenceSkips(a, b, c[..|c| - 1]);
    }
  }

  lemma {:induction false} SubsequenceGrows(a: seq<Request>, b: seq<Request>, c: seq<Request>)
    requires Subsequence(a, b)
    ensures Subsequence(a + c, b + c)
  {
    if c == [] {
      assert a + c == a && b + c == b;
    } else {
      assert (a + c)[..|a + c| - 1] == a + c[..|c| - 1] && (b + c)[..|b + c| - 1] == b + c[..|c| - 1];
      SubsequenceGrows(a, b, c[..|c| - 1]);
    }
  }

  /** A batch joins both sides, or only the longer one. */
  lemma Lengthened(a: seq<Request>, b: seq<Request>, more: seq<Request>, batch: seq<Request>)
    requires Subsequence(a, b) && (more == batch || more == [])
    ensures Subsequence(a + more, b + batch)
  {
    hide Subsequence;
    SubsequenceGrows(a, b, batch);
    SubsequenceSkips(a, b, batch);
    assert a + [] == a;
  }

  function TotalRows(rs: seq<Request>): nat {
    if rs == [] then 0 else TotalRows(rs[..|rs| - 1]) + rs[|rs| - 1].Rows()
  }

  lemma RowsOfMore(rs: seq<Request>, r: Request)
    ensures TotalRows(rs + [r]) == TotalRows(rs) + r.Rows() && TotalRows([]) == 0 && TotalRows([r]) == r.Rows()
  {
    assert (rs + [r])[..|rs|] == rs && [r][..0] == [];
  }

  /** A validated row gets the next generation until safe integers run out. */
  lemma NextAppend(st: State, e: Entry)
    requires Sound(st) && ValidEntry(e.(id := 1))
    ensures Apply(st, Append(e.(id := st.nextId))).Ok? <==> st.nextId < MAX_SAFE_INTEGER
    ensures st.nextId < MAX_SAFE_INTEGER ==>
              && Sound(Apply(st, Append(e.(id := st.nextId))).value)
              && Apply(st, Append(e.(id := st.nextId))).value.nextId == st.nextId + 1
  {
    if st.nextId < MAX_SAFE_INTEGER {
      FreshAppendSucceeds(st, e.(id := st.nextId));
      ApplyIsSound(st, Append(e.(id := st.nextId)));
    }
  }

  lemma NextAck(st: State, w: Watermark)
    requires Sound(st) && JournalIndices.ValidWatermark(w.path, w.throughId)
    ensures Apply(st, Ack(w.path, w.throughId)).Ok? && Sound(Apply(st, Ack(w.path, w.throughId)).value)
    ensures Apply(st, Ack(w.path, w.throughId)).value.nextId >= st.nextId
  {
    ApplyIsSound(st, Ack(w.path, w.throughId));
  }

  lemma {:induction false} AppendsPrefix(entries: seq<Entry>, nextId: nat, n: nat)
    requires n <= |entries|
    ensures |Appends(entries, nextId)| == |entries|
    ensures Appends(entries[..n], nextId) == Appends(entries, nextId)[..n]
  {
    if entries != [] {
      if n > 0 {
        assert entries[..n][1..] == entries[1..][..n - 1];
        AppendsPrefix(entries[1..], nextId + 1, n - 1);
      } else {
        AppendsPrefix(entries[1..], nextId + 1, 0);
      }
    }
  }

  lemma {:induction false} AppendsGrow(entries: seq<Entry>, nextId: nat, i: nat)
    requires i < |entries|
    ensures Appends(entries[..i + 1], nextId) == Appends(entries[..i], nextId) + [Append(entries[i].(id := nextId + i))]
  {
    if i > 0 {
      assert entries[..i + 1][1..] == entries[1..][..i] && entries[..i][1..] == entries[1..][..i - 1];
      AppendsGrow(entries[1..], nextId + 1, i - 1);
    }
  }

  lemma {:induction false} AppendsIds(entries: seq<Entry>, nextId: nat, n: nat)
    requires n <= |entries|
    ensures IdsOf(Appends(entries[..n], nextId)) == seq(n, i => nextId + i)
  {
    if n > 0 {
      AppendsGrow(entries, nextId, n - 1);
      AppendsIds(entries, nextId, n - 1);
      var before := Appends(entries[..n - 1], nextId);
      assert Appends(entries[..n], nextId)[..|before|] == before;
    }
  }

  /** Appending replayable rows to a loadable store loads their replay. */
  lemma WalExtends(store: Store, rows: seq<Operation>)
    requires Load(store).Ok? && JournalIndices.Agree(Load(store).value.index)
    ensures Load(store.(wal := store.wal + rows, segments := store.segments + 1)) == Replay(Load(store).value, rows)
  {
    hide JournalIndices.Agree, JournalLog.Apply;
    LoadedIsSnapshot(store.rows, store.nextId);
    ReplaySplit(State(LoadRows(store.rows, store.nextId).value, store.nextId), store.wal, rows);
  }
}
