/** Native ownership in the desktop hash worker pool: spawning, failure,
    termination, restart, limit changes and the drain barrier, with observers and
    a factory that may call back into the pool. */
module WorkerPools {
  import opened Common

  const MAX_RESTARTS_PER_SLOT := 3

  /** A slot's termination promise: not requested, pending, or settled. */
  datatype Ending = Unasked | Pending | Done(ok: bool)

  /** What `worker.terminate()` does. */
  datatype Stop = Throws | Immediate | Promised

  /** The environment's behaviour at one point where foreign code runs: an observer
      or the factory may change the limit any number of times and then close the
      pool, and foreign calls may fail. */
  datatype Choice = Choice(limits: seq<int>, closes: bool, drains: bool, factory: bool, listeners: bool, stop: Stop,
                           timer: bool) {
    /** Foreign code that leaves the pool alone. */
    predicate Passive() {
      limits == [] && !closes && !drains
    }

    predicate Plain() {
      Passive() && factory && listeners
    }
  }

  const PLAIN := Choice([], false, false, true, true, Promised, true)

  /** The fields of a slot that change. */
  datatype SlotState = SlotState(
    ready: bool, dead: bool, retiring: bool, busy: bool, restartPlanned: bool, nativeTerminated: bool, promised: bool,
    ending: Ending)

  const NEW_SLOT := SlotState(false, false, false, false, false, false, false, Unasked)

  class Slot {
    const index: nat
    const restarts: nat
    var now: SlotState

    constructor (index: nat, restarts: nat)
      ensures this.index == index && this.restarts == restarts && now == NEW_SLOT
    {
      this.index, this.restarts := index, restarts;
      now := NEW_SLOT;
    }
  }

  // ------------------------------------------------------- the pool as a value

  /** The pool's fields and the state of every slot it ever made. `failing` are dead
      slots whose termination is about to be asked for, `inSpawn` the indices between
      the start of a spawn and the seating of its worker. `hazard` records that some
      limit was raised over an index that was not clear, `clashed` that some worker was
      seated over one still owned. */
  datatype Pool = Pool(
    slots: map<nat, Slot>, state: map<Slot, SlotState>, owned: set<Slot>, closed: bool, limit: nat, disabled: set<nat>,
    restarts: map<nat, nat>, spawning: nat, drainRequested: bool, drained: bool, waiting: seq<Slot>, made: seq<Slot>,
    failing: set<Slot>, inSpawn: seq<nat>, hazard: bool, clashed: bool)

  function WithState(p: Pool, s: Slot, x: SlotState): Pool {
    p.(state := p.state[s := x])
  }

  predicate IsCurrent(slots: map<nat, Slot>, s: Slot) {
    s.index in slots && slots[s.index] == s
  }

  /** The current slot of an index is one of the pool's, under its own index. */
  ghost predicate Seated(n: nat, slots: map<nat, Slot>, all: set<Slot>) {
    forall i | i in slots :: slots[i] in all && slots[i].index == i && i < n
  }

  /** One owner per index: an owned worker is the current slot of its index. */
  ghost predicate OnePerIndex(slots: map<nat, Slot>, owned: set<Slot>) {
    forall s | s in owned :: IsCurrent(slots, s)
  }

  /** A slot's place in the pool: whether it is the current slot of its index, is
      owned, is just failing, and whether its index is being spawned anew. */
  datatype Standing = Standing(index: nat, current: bool, mine: bool, failing: bool, spawning: bool)

  /** A slot's own state. Ownership ends exactly with a confirmed exit, and a
      termination that reports success was confirmed; a planned restart is that of a
      dead slot; a dead slot is being terminated unless it is just failing. In a safe
      pool slots in service or with a planned restart are current, and of an index
      that is being spawned nothing is in service, owned or planned. */
  predicate SlotOk(n: nat, p: Standing, safe: bool, x: SlotState) {
    && p.index < n
    && (p.mine <==> !x.nativeTerminated) && (x.ending == Done(true) ==> x.nativeTerminated)
    && (x.restartPlanned ==> x.dead) && (p.failing ==> x.dead) && (x.dead && !p.failing ==> x.ending != Unasked)
    && (safe && (x.restartPlanned || !x.dead) ==> p.current)
    && (safe && p.current && p.spawning ==> x.nativeTerminated && x.dead && !x.restartPlanned)
  }

  function StandingOf(p: Pool, s: Slot): Standing {
    Standing(s.index, IsCurrent(p.slots, s), s in p.owned, s in p.failing, s.index in p.inSpawn)
  }

  ghost predicate AllOk(n: nat, p: Pool) {
    forall s | s in p.state :: SlotOk(n, StandingOf(p, s), !p.hazard, p.state[s])
  }

  /** In a safe pool no index is being spawned twice. */
  ghost predicate Distinct(safe: bool, inSpawn: seq<nat>) {
    safe ==> forall j, k | 0 <= j < k < |inSpawn| :: inSpawn[j] != inSpawn[k]
  }

  ghost predicate Known(p: Pool) {
    && p.owned <= p.state.Keys && p.failing <= p.state.Keys
    && (forall i | 0 <= i < |p.waiting| :: p.waiting[i] in p.state)
    && (forall i | 0 <= i < |p.made| :: p.made[i] in p.state)
    && (forall i | i in p.restarts :: p.restarts[i] <= MAX_RESTARTS_PER_SLOT)
  }

  /** A resolved drain was requested, and no worker is or will be left. */
  predicate DrainOk(p: Pool) {
    p.drained ==> p.drainRequested && p.closed && p.owned == {} && p.spawning == 0
  }

  /** Every index has one owner unless a worker was seated over an owned one, which
      happens only after a limit was raised over an index that was not clear. */
  ghost predicate Sound(n: nat, p: Pool) {
    && Seated(n, p.slots, p.state.Keys) && AllOk(n, p) && Known(p) && DrainOk(p) && Distinct(!p.hazard, p.inSpawn)
    && (!p.clashed ==> OnePerIndex(p.slots, p.owned)) && (p.clashed ==> p.hazard)
  }

  /** A requested drain is resolved as soon as it may be. */
  predicate Prompt(p: Pool) {
    (p.drainRequested ==> p.closed) && (p.drainRequested && p.owned == {} && p.spawning == 0 ==> p.drained)
  }

  /** Nothing of the index is in service, owned or planned. */
  predicate Vacant(p: Pool, index: nat) {
    index in p.slots && p.slots[index] in p.state ==>
      var x := p.state[p.slots[index]]; x.nativeTerminated && x.dead && !x.restartPlanned
  }

  /** What a caller can check before raising the limit over an index: it is not being
      spawned, and it has no dead worker that is still owned and whose termination has
      not been asked for, unless the index is disabled. */
  ghost predicate ClearAt(p: Pool, i: nat) {
    i !in p.inSpawn &&
    forall s | s in p.state && s in p.failing && s in p.owned && s.index == i && p.state[s].ending == Unasked ::
      i in p.disabled
  }

  ghost predicate Clear(p: Pool, n: int) {
    forall i: nat | p.limit <= i < n :: ClearAt(p, i)
  }

  datatype Growth = Growth(before: Pool, to: int)

  /** Some raise was over an index that was not clear. */
  ghost predicate AnyUnclear(raised: seq<Growth>) {
    exists i :: 0 <= i < |raised| && !Clear(raised[i].before, raised[i].to)
  }

  lemma OneMoreRaise(raised: seq<Growth>, r: Growth)
    ensures AnyUnclear(raised + [r]) <==> AnyUnclear(raised) || !Clear(r.before, r.to)
  {
    hide Clear;
    var more := raised + [r];
    assert more[|raised|] == r;
    if i :| 0 <= i < |raised| && !Clear(raised[i].before, raised[i].to) {
      assert more[i] == raised[i];
    }
  }

  /** Between events every index is clear. */
  lemma ClearBetween(p: Pool, raised: seq<Growth>, n: int)
    requires p.inSpawn == [] && p.failing == {}
    ensures AnyUnclear(raised + [Growth(p, n)]) == AnyUnclear(raised) && raised + [] == raised
  {
    OneMoreRaise(raised, Growth(p, n));
  }

  /** Just failing means dead and not asked to stop. */
  lemma FailingIsUnasked(n: nat, p: Pool, s: Slot)
    requires Sound(n, p) && s in p.state && p.state[s].ending == Unasked
    ensures s in p.failing <==> p.state[s].dead
  {
    assert SlotOk(n, StandingOf(p, s), !p.hazard, p.state[s]);
  }

  // ------------------------------------------------------- soundness, step by step

  lemma SlotIsOk(n: nat, p: Pool, s: Slot)
    requires Sound(n, p) && s in p.state
    ensures SlotOk(n, StandingOf(p, s), !p.hazard, p.state[s])
  {
  }

  /** One slot changes, its place does not. */
  lemma SoundState(n: nat, p: Pool, s: Slot, x: SlotState)
    requires Sound(n, p) && s in p.state && SlotOk(n, StandingOf(p, s), !p.hazard, x)
    ensures Sound(n, WithState(p, s, x))
  {
    hide SlotOk, OnePerIndex, Distinct;
    var q := WithState(p, s, x);
    assert q.state.Keys == p.state.Keys;
    forall t | t in q.state
      ensures SlotOk(n, StandingOf(q, t), !q.hazard, q.state[t])
    {
      assert StandingOf(q, t) == StandingOf(p, t);
    }
  }

  lemma SoundFailing(n: nat, p: Pool, s: Slot, x: SlotState)
    requires Sound(n, p) && s in p.state
    requires SlotOk(n, StandingOf(p, s).(failing := true), !p.hazard, x)
    ensures Sound(n, WithState(p, s, x).(failing := p.failing + {s}))
  {
    hide SlotOk, OnePerIndex, Distinct;
    var q := WithState(p, s, x).(failing := p.failing + {s});
    assert q.state.Keys == p.state.Keys;
    forall t | t in q.state
      ensures SlotOk(n, StandingOf(q, t), !q.hazard, q.state[t])
    {
      if t == s {
        assert StandingOf(q, s) == StandingOf(p, s).(failing := true);
      } else {
        assert StandingOf(q, t) == StandingOf(p, t);
      }
    }
  }

  /** A slot that is being terminated is not failing any more. */
  lemma SoundAsked(n: nat, p: Pool, s: Slot, before: set<Slot>)
    requires Sound(n, p) && s in p.state && p.failing == before + {s} && p.state[s].ending != Unasked
    ensures Sound(n, p.(failing := before))
  {
    hide OnePerIndex, Distinct;
    var q := p.(failing := before);
    forall t | t in q.state
      ensures SlotOk(n, StandingOf(q, t), !q.hazard, q.state[t])
    {
      assert SlotOk(n, StandingOf(p, t), !p.hazard, p.state[t]);
    }
  }

  /** A confirmed exit ends ownership. */
  lemma SoundGone(n: nat, p: Pool, s: Slot, x: SlotState)
    requires Sound(n, p) && s in p.state && SlotOk(n, StandingOf(p, s).(mine := false), !p.hazard, x)
    ensures Sound(n, WithState(p, s, x).(owned := p.owned - {s}))
  {
    hide SlotOk, Distinct;
    var q := WithState(p, s, x).(owned := p.owned - {s});
    assert q.state.Keys == p.state.Keys;
    forall t | t in q.state
      ensures SlotOk(n, StandingOf(q, t), !q.hazard, q.state[t])
    {
      if t == s {
        assert StandingOf(q, s) == StandingOf(p, s).(mine := false);
      } else {
        assert StandingOf(q, t) == StandingOf(p, t);
      }
    }
  }

  /** Raising the alarm only weakens what is promised. */
  lemma SoundHazard(n: nat, p: Pool)
    requires Sound(n, p)
    ensures Sound(n, p.(hazard := true))
  {
    hide OnePerIndex;
    var q := p.(hazard := true);
    forall t | t in q.state
      ensures SlotOk(n, StandingOf(q, t), false, q.state[t])
    {
      assert SlotOk(n, StandingOf(p, t), !p.hazard, p.state[t]) && StandingOf(q, t) == StandingOf(p, t);
    }
  }

  lemma SoundSpawning(n: nat, p: Pool, index: nat)
    requires Sound(n, p) && (p.hazard || (Vacant(p, index) && index !in p.inSpawn))
    ensures Sound(n, p.(inSpawn := p.inSpawn + [index]))
  {
    hide OnePerIndex;
    var q := p.(inSpawn := p.inSpawn + [index]);
    forall t | t in q.state
      ensures SlotOk(n, StandingOf(q, t), !q.hazard, q.state[t])
    {
      assert SlotOk(n, StandingOf(p, t), !p.hazard, p.state[t]);
    }
  }

  lemma SoundUnspawning(n: nat, p: Pool)
    requires Sound(n, p) && p.inSpawn != []
    ensures Sound(n, p.(inSpawn := p.inSpawn[..|p.inSpawn| - 1]))
  {
    hide OnePerIndex;
    var q := p.(inSpawn := p.inSpawn[..|p.inSpawn| - 1]);
    forall t | t in q.state
      ensures SlotOk(n, StandingOf(q, t), !q.hazard, q.state[t])
    {
      assert SlotOk(n, StandingOf(p, t), !p.hazard, p.state[t]);
    }
  }

  /** The pool with a new worker in the seat whose spawning began last. */
  function Installed(p: Pool, s: Slot): Pool
    requires p.inSpawn != []
  {
    p.(slots := p.slots[s.index := s], state := p.state[s := NEW_SLOT], owned := p.owned + {s}, made := p.made + [s],
       spawning := if p.spawning == 0 then 0 else p.spawning - 1, inSpawn := p.inSpawn[..|p.inSpawn| - 1],
       clashed := p.clashed || (s.index in p.slots && p.slots[s.index] in p.owned))
  }

  lemma InstalledMeans(p: Pool, s: Slot)
    requires p.inSpawn != [] && p.spawning > 0
    ensures var q := Installed(p, s);
      && q.failing == p.failing && q.spawning == p.spawning - 1 && q.inSpawn == p.inSpawn[..|p.inSpawn| - 1]
      && q.limit == p.limit
      && q.slots == p.slots[s.index := s] && q.closed == p.closed && q.disabled == p.disabled
  {
  }

  lemma InstalledInTwo(p: Pool, s: Slot)
    requires p.inSpawn != [] && p.spawning > 0
    ensures Enlisted(p, s).inSpawn != [] && Enlisted(p, s).spawning > 0
    ensures Installed(p, s) == SeatTaken(Enlisted(p, s), s, s.index in p.slots && p.slots[s.index] in p.owned)
  {
  }

  /** The books take note of a new worker. */
  function Enlisted(p: Pool, s: Slot): Pool {
    p.(state := p.state[s := NEW_SLOT], made := p.made + [s], owned := p.owned + {s})
  }

  /** It takes the seat whose spawning began last. */
  function SeatTaken(p: Pool, s: Slot, taken: bool): Pool
    requires p.inSpawn != [] && p.spawning > 0
  {
    p.(slots := p.slots[s.index := s], spawning := p.spawning - 1, inSpawn := p.inSpawn[..|p.inSpawn| - 1],
       clashed := p.clashed || taken)
  }

  lemma InstalledIsOk(n: nat, p: Pool, s: Slot, t: Slot)
    requires s !in p.state && p.inSpawn != [] && p.inSpawn[|p.inSpawn| - 1] == s.index
    requires t in p.state && SlotOk(n, StandingOf(p, t), !p.hazard, p.state[t])
    ensures SlotOk(n, StandingOf(Installed(p, s), t), !p.hazard, p.state[t])
  {
    assert p.inSpawn == p.inSpawn[..|p.inSpawn| - 1] + [s.index];
  }

  lemma NewIsOk(n: nat, p: Pool, s: Slot)
    requires Known(p) && s !in p.state && p.inSpawn != [] && p.inSpawn[|p.inSpawn| - 1] == s.index < n &&
      Distinct(!p.hazard, p.inSpawn)
    ensures SlotOk(n, StandingOf(Installed(p, s), s), !p.hazard, NEW_SLOT)
  {
    if !p.hazard { NotAgain(p.inSpawn); }
  }

  /** Seating a new worker keeps one owner per index unless the seat is owned. */
  lemma OneMore(p: Pool, s: Slot)
    requires p.inSpawn != [] && OnePerIndex(p.slots, p.owned) && !Installed(p, s).clashed
    ensures OnePerIndex(Installed(p, s).slots, Installed(p, s).owned)
  {
  }

  lemma SoundInstalled(n: nat, p: Pool, s: Slot)
    requires Sound(n, p) && s !in p.state && p.spawning > 0
    requires p.inSpawn != [] && p.inSpawn[|p.inSpawn| - 1] == s.index < n
    ensures Sound(n, Installed(p, s))
  {
    hide SlotOk, OnePerIndex, StandingOf;
    var q := Installed(p, s);
    assert q.state.Keys == p.state.Keys + {s};
    forall t | t in q.state
      ensures SlotOk(n, StandingOf(q, t), !q.hazard, q.state[t])
    {
      if t == s {
        NewIsOk(n, p, s);
      } else {
        InstalledIsOk(n, p, s, t);
      }
    }
    if !q.clashed { OneMore(p, s); }
    if q.clashed && !p.clashed { ClashIsHazard(n, p, s.index); }
  }

  /** In a safe pool no owned worker sits where one is being spawned. */
  lemma ClashIsHazard(n: nat, p: Pool, index: nat)
    requires Sound(n, p) && index in p.inSpawn && index in p.slots && p.slots[index] in p.owned
    ensures p.hazard
  {
    SlotIsOk(n, p, p.slots[index]);
  }

  lemma NotAgain(inSpawn: seq<nat>)
    requires inSpawn != [] && Distinct(true, inSpawn)
    ensures inSpawn[|inSpawn| - 1] !in inSpawn[..|inSpawn| - 1]
  {
  }

  // ----------------------------------------------------------- what every call keeps

  /** Exits and deaths are final; a termination once asked for is not forgotten, and
      then only the worker itself can confirm its exit. */
  predicate Aged(x: SlotState, y: SlotState) {
    && (x.dead ==> y.dead) && (x.nativeTerminated ==> y.nativeTerminated)
    && (x.ending != Unasked ==> y.ending != Unasked && y.nativeTerminated == x.nativeTerminated)
  }

  /** Where the current slot of an index has changed, the previous one is known to be
      gone, unless the pool has clashed. */
  ghost predicate Replaced(a: Pool, b: Pool) {
    forall i | i in a.slots ::
      i in b.slots &&
        (b.slots[i] == a.slots[i] || b.clashed || (a.slots[i] in b.state && b.state[a.slots[i]].nativeTerminated))
  }

  /** No slot is forgotten or grows younger, and none is owned again. */
  ghost predicate AllAged(a: Pool, b: Pool) {
    && a.state.Keys <= b.state.Keys
    && forall s | s in a.state :: Aged(a.state[s], b.state[s]) && (s in b.owned ==> s in a.owned)
  }

  /** What every call keeps, however foreign code behaves inside it. */
  ghost predicate Later(a: Pool, b: Pool) {
    && AllAged(a, b) && Replaced(a, b)
    && (a.closed ==> b.closed) && (a.drainRequested ==> b.drainRequested) && (a.drained ==> b.drained)
    && (Prompt(a) ==> Prompt(b)) && (a.hazard ==> b.hazard) && (a.clashed ==> b.clashed) && a.disabled <= b.disabled
    && a.waiting <= b.waiting && a.made <= b.made
  }

  /** What a call leaves alone besides if no limit is changed inside it. */
  ghost predicate Calm(a: Pool, b: Pool) {
    && b.limit == a.limit && b.slots == a.slots && b.state.Keys == a.state.Keys
    && forall s | s in a.state ::
         (b.state[s].restartPlanned ==> a.state[s].restartPlanned) && (a.state[s].retiring ==> b.state[s].retiring)
  }

  /** Nothing being spawned or failing is left behind. */
  predicate Restored(a: Pool, b: Pool) {
    b.failing == a.failing && b.inSpawn == a.inSpawn && b.spawning == a.spawning
  }

  /** Nothing happened besides drain requests. */
  predicate Idle(a: Pool, b: Pool) {
    b == a.(drainRequested := b.drainRequested, drained := b.drained)
  }

  /** Nothing happened to any other slot, and no restart was planned. */
  ghost predicate Alone(a: Pool, b: Pool, s: Slot) {
    && b.slots == a.slots && b.limit == a.limit && b.state.Keys == a.state.Keys && a.owned - {s} <= b.owned
    && (forall t | t in a.state && t != s :: b.state[t] == a.state[t])
    && (s in a.state ==>
      (b.state[s].restartPlanned ==> a.state[s].restartPlanned) && (a.state[s].retiring ==> b.state[s].retiring))
  }

  /** Workers that are no slots of the pool are left as they are. */
  ghost predicate Spares(a: Pool, b: Pool) {
    && b.slots == a.slots && b.limit == a.limit && b.state.Keys == a.state.Keys
    && forall s | s in a.state && !IsCurrent(a.slots, s) :: b.state[s] == a.state[s] && (s in a.owned ==> s in b.owned)
  }

  lemma LaterSelf(a: Pool)
    ensures Later(a, a) && Calm(a, a) && Spares(a, a)
  {
  }

  lemma AloneSelf(a: Pool, s: Slot)
    ensures Alone(a, a, s)
  {
  }

  lemma AllAgedOn(a: Pool, b: Pool, c: Pool)
    requires AllAged(a, b) && AllAged(b, c)
    ensures AllAged(a, c)
  {
  }

  lemma LaterOn(a: Pool, b: Pool, c: Pool)
    requires Later(a, b) && Later(b, c)
    ensures Later(a, c)
  {
    AllAgedOn(a, b, c);
    forall i | i in a.slots
      ensures i in c.slots &&
        (c.slots[i] == a.slots[i] || c.clashed || (a.slots[i] in c.state && c.state[a.slots[i]].nativeTerminated))
    {
      assert i in b.slots;
    }
  }

  lemma CalmOn(a: Pool, b: Pool, c: Pool)
    requires Calm(a, b) && Calm(b, c)
    ensures Calm(a, c)
  {
  }

  lemma AloneOn(a: Pool, b: Pool, c: Pool, s: Slot)
    requires Alone(a, b, s) && Alone(b, c, s)
    ensures Alone(a, c, s)
  {
  }

  lemma IdleMeans(a: Pool, b: Pool, s: Slot)
    requires Idle(a, b)
    ensures Calm(a, b) && Alone(a, b, s)
  {
  }

  lemma SoundDisabled(n: nat, p: Pool, index: nat)
    requires Sound(n, p)
    ensures var q := p.(disabled := p.disabled + {index}); Sound(n, q) && Later(p, q) && Calm(p, q)
  {
    hide SlotOk, OnePerIndex, Distinct;
    var q := p.(disabled := p.disabled + {index});
    assert forall t :: StandingOf(q, t) == StandingOf(p, t);
  }

  lemma AloneDisabled(p: Pool, index: nat, s: Slot)
    ensures Alone(p, p.(disabled := p.disabled + {index}), s)
  {
  }

  lemma AgedSlot(a: Pool, b: Pool, s: Slot)
    requires Later(a, b) && s in a.state
    ensures s in b.state && Aged(a.state[s], b.state[s])
  {
  }

  lemma CalmSlot(a: Pool, b: Pool, s: Slot)
    requires Calm(a, b) && s in a.state && s in b.state
    ensures b.state[s].restartPlanned ==> a.state[s].restartPlanned
  {
  }

  lemma AloneSlot(a: Pool, b: Pool, s: Slot)
    requires Alone(a, b, s) && s in a.state && s in b.state
    ensures b.state[s].restartPlanned ==> a.state[s].restartPlanned
  {
  }

  lemma AloneBesides(a: Pool, b: Pool, s: Slot, failing: set<Slot>)
    requires Alone(a, b, s)
    ensures Alone(a, b.(failing := failing), s)
  {
  }

  lemma AloneIsCalm(a: Pool, b: Pool, s: Slot)
    requires Alone(a, b, s)
    ensures Calm(a, b) && b.slots == a.slots && b.state.Keys == a.state.Keys && b.limit == a.limit
    ensures forall t | t in a.state && t != s :: b.state[t] == a.state[t]
  {
  }

  lemma SoundClosed(n: nat, p: Pool)
    requires Sound(n, p)
    ensures var q := p.(closed := true); Sound(n, q) && Later(p, q) && Calm(p, q) && Spares(p, q)
  {
    hide SlotOk, OnePerIndex, Distinct;
    var q := p.(closed := true);
    assert forall t :: StandingOf(q, t) == StandingOf(p, t);
  }

  lemma SoundRequested(n: nat, p: Pool)
    requires Sound(n, p)
    ensures Sound(n, p.(drainRequested := true))
  {
    hide SlotOk, OnePerIndex, Distinct;
    var q := p.(drainRequested := true);
    assert forall t :: StandingOf(q, t) == StandingOf(p, t);
  }

  /** A drain requested of a pool that is closed at once. */
  lemma LaterRequested(a: Pool, c: Pool)
    requires Later(a.(drainRequested := true), c) && c.closed && c.drainRequested
    ensures Later(a, DrainedIfReady(c))
  {
  }

  lemma BesidesDrain(a: Pool, c: Pool)
    ensures Calm(a.(drainRequested := true), c) ==> Calm(a, DrainedIfReady(c))
    ensures Spares(a.(drainRequested := true), c) ==> Spares(a, DrainedIfReady(c))
  {
  }

  lemma CurrentIsKnown(n: nat, p: Pool)
    requires Sound(n, p)
    ensures forall i | i in p.slots ::
      p.slots[i] in p.state && p.slots[i].index == i && i < n && IsCurrent(p.slots, p.slots[i])
  {
  }

  lemma SparesThrough(a: Pool, b: Pool, c: Pool)
    requires Spares(a, b) && Spares(b, c)
    ensures Spares(a, c)
  {
  }

  lemma RequestedStays(a: Pool, b: Pool)
    requires Later(a, b) && a.drainRequested
    ensures b.drainRequested
  {
  }

  lemma DisabledStays(a: Pool, b: Pool)
    requires Later(a, b)
    ensures a.disabled <= b.disabled
  {
  }

  lemma CalmLimit(a: Pool, b: Pool)
    requires Calm(a, b)
    ensures b.limit == a.limit && b.slots == a.slots
  {
  }

  lemma SoundBegun(n: nat, p: Pool)
    requires Sound(n, p) && !p.closed
    ensures Sound(n, p.(spawning := p.spawning + 1)) && Later(p, p.(spawning := p.spawning + 1))
  {
    hide SlotOk, OnePerIndex, Distinct;
    var q := p.(spawning := p.spawning + 1);
    assert forall t :: StandingOf(q, t) == StandingOf(p, t);
  }

  lemma SoundEnded(n: nat, p: Pool)
    requires Sound(n, p) && p.spawning > 0
    ensures var q := DrainedIfReady(p.(spawning := p.spawning - 1)); Sound(n, q) && Later(p, q) && Calm(p, q)
  {
    hide SlotOk, OnePerIndex, Distinct;
    var q := DrainedIfReady(p.(spawning := p.spawning - 1));
    assert forall t :: StandingOf(q, t) == StandingOf(p, t);
  }

  lemma LaterInstalled(n: nat, p: Pool, s: Slot)
    requires Sound(n, p) && s !in p.state && p.inSpawn != [] && p.spawning > 0
    ensures Later(p, Installed(p, s))
  {
    hide SlotOk, OnePerIndex, Distinct;
    var q := Installed(p, s);
    if s.index in p.slots {
      SlotIsOk(n, p, p.slots[s.index]);
      Unowned(n, StandingOf(p, p.slots[s.index]), !p.hazard, p.state[p.slots[s.index]]);
    }
  }

  lemma Unowned(n: nat, p: Standing, safe: bool, x: SlotState)
    requires SlotOk(n, p, safe, x)
    ensures p.mine <==> !x.nativeTerminated
  {
  }

  lemma IdleSelf(a: Pool)
    ensures Idle(a, a)
  {
  }

  lemma IdleOn(a: Pool, b: Pool, c: Pool)
    requires Idle(a, b) && Idle(b, c)
    ensures Idle(a, c)
  {
  }

  lemma SparesOn(a: Pool, b: Pool, c: Pool, s: Slot)
    requires Spares(a, b) && Alone(b, c, s) && IsCurrent(a.slots, s)
    ensures Spares(a, c)
  {
  }

  /** One slot changes and is not the younger for it. */
  lemma LaterState(a: Pool, s: Slot, x: SlotState)
    requires s in a.state && Aged(a.state[s], x)
    ensures Later(a, WithState(a, s, x))
    ensures (x.restartPlanned ==> a.state[s].restartPlanned) && (a.state[s].retiring ==> x.retiring) ==>
      Calm(a, WithState(a, s, x)) && Alone(a, WithState(a, s, x), s)
  {
  }

  /** An index stays clear unless the alarm is raised. */
  lemma StaysClear(n: nat, a: Pool, b: Pool, i: nat)
    requires Later(a, b) && Restored(a, b) && ClearAt(a, i) && a.failing <= a.state.Keys
    ensures ClearAt(b, i)
  {
    forall s | s in b.state && s in b.failing && s in b.owned && s.index == i && b.state[s].ending == Unasked
      ensures i in b.disabled
    {
      assert s in a.state && Aged(a.state[s], b.state[s]);
    }
  }

  /** A confirmed exit. */
  function Gone(p: Pool, s: Slot): Pool
    requires s in p.state
  {
    var x := p.state[s];
    WithState(p, s, x.(nativeTerminated := true, ending := if x.ending == Pending then Done(true) else x.ending))
    .(owned := p.owned - {s})
  }

  function DrainedIfReady(p: Pool): Pool {
    p.(drained := p.drained || (p.closed && p.owned == {} && p.spawning == 0 && p.drainRequested))
  }

  lemma SoundDrained(n: nat, p: Pool)
    requires Sound(n, p)
    ensures Sound(n, DrainedIfReady(p))
  {
    hide SlotOk, OnePerIndex, Distinct;
    var q := DrainedIfReady(p);
    assert forall t :: StandingOf(q, t) == StandingOf(p, t);
  }

  lemma SoundConfirmed(n: nat, p: Pool, s: Slot)
    requires Sound(n, p) && s in p.state
    ensures Sound(n, DrainedIfReady(Gone(p, s))) && (Prompt(p) ==> Prompt(DrainedIfReady(Gone(p, s))))
  {
    hide Sound;
    SlotIsOk(n, p, s);
    SoundGone(n, p, s, Gone(p, s).state[s]);
    SoundDrained(n, Gone(p, s));
  }

  /** A worker that stops as soon as it is asked. */
  lemma StoppedNow(n: nat, a: Pool, b: Pool, s: Slot)
    requires Sound(n, a) && s in a.state && a.state[s].ending == Unasked
    requires b == WithState(DrainedIfReady(Gone(a, s)), s, DrainedIfReady(Gone(a, s)).state[s].(ending := Done(true)))
    ensures Sound(n, b) && Later(a, b) && Calm(a, b) && Restored(a, b) && Alone(a, b, s)
  {
    hide Sound;
    SoundConfirmed(n, a, s);
    var m := DrainedIfReady(Gone(a, s));
    SlotIsOk(n, m, s);
    SoundState(n, m, s, b.state[s]);
  }

  /** Taken out of service; failing until its termination is asked for. */
  function Died(p: Pool, s: Slot): Pool
    requires s in p.state
  {
    WithState(p, s, p.state[s].(dead := true, ready := false, restartPlanned := false, busy := false))
    .(failing := p.failing + {s})
  }

  lemma SoundDied(n: nat, p: Pool, s: Slot)
    requires Sound(n, p) && s in p.state
    ensures Sound(n, Died(p, s)) && Later(p, Died(p, s)) && Calm(p, Died(p, s)) && Alone(p, Died(p, s), s)
  {
    hide Sound;
    SlotIsOk(n, p, s);
    SoundFailing(n, p, s, Died(p, s).state[s]);
  }

  lemma LaterBesides(a: Pool, b: Pool, failing: set<Slot>, inSpawn: seq<nat>)
    requires Later(a, b)
    ensures Later(a, b.(failing := failing, inSpawn := inSpawn)) && Later(a.(failing := failing, inSpawn := inSpawn), b)
    ensures Calm(a, b) ==>
      Calm(a, b.(failing := failing, inSpawn := inSpawn)) && Calm(a.(failing := failing, inSpawn := inSpawn), b)
  {
  }

  // ------------------------------------------------------------- exact descriptions

  function RestartsOf(p: Pool, index: nat): nat {
    if index in p.restarts then p.restarts[index] else 0
  }

  /** Nothing but a planned restart may have changed. */
  predicate Kept(x: SlotState, y: SlotState) {
    y == x.(restartPlanned := y.restartPlanned)
  }

  /** A new worker took the seat, and nothing else happened. */
  ghost predicate Seats(a: Pool, b: Pool, index: nat) {
    Reseats(a, b, index) && forall s | s in a.state :: b.state[s] == a.state[s]
  }

  /** The same but for planned restarts. */
  ghost predicate Reseats(a: Pool, b: Pool, index: nat) {
    && index in b.slots && b.slots[index] !in a.state && b.slots[index].index == index
    && b.slots[index].restarts == RestartsOf(a, index) && b.slots == a.slots[index := b.slots[index]]
    && b.owned == a.owned + {b.slots[index]} && b.state.Keys == a.state.Keys + {b.slots[index]}
    && b.state[b.slots[index]] == NEW_SLOT
    && b.made == a.made + [b.slots[index]] && b.disabled == a.disabled && b.closed == a.closed
    && b.restarts == a.restarts
    && b.waiting == a.waiting && b.clashed == (a.clashed || (index in a.slots && a.slots[index] in a.owned))
    && (forall s | s in a.state :: Kept(a.state[s], b.state[s]))
  }

  /** Shrinking below dead slots only takes back their planned restarts. */
  ghost predicate Shrunk(a: Pool, b: Pool, n: int) {
    && b.limit == n && b.slots == a.slots && b.state.Keys == a.state.Keys && b.owned == a.owned
    && b.disabled == a.disabled
    && b.closed == a.closed && b.made == a.made && b.waiting == a.waiting && b.clashed == a.clashed
    && b.restarts == a.restarts
    && (forall s | s in a.state :: Kept(a.state[s], b.state[s]))
    && n in b.slots && b.slots[n] in b.state && !b.state[b.slots[n]].restartPlanned
  }

  lemma ReseatsAfterShrinking(a: Pool, b: Pool, c: Pool, n: nat)
    requires Shrunk(a, b, n) && Seats(b, c, n)
    ensures Reseats(a, c, n)
  {
  }

  lemma SeatsAfterIdle(a: Pool, b: Pool, c: Pool, index: nat)
    requires Idle(a, b) && Seats(b, c, index)
    ensures Seats(a, c, index)
  {
  }

  lemma IdleAfterSeats(a: Pool, b: Pool, c: Pool, index: nat)
    requires Seats(a, b, index) && Idle(b, c)
    ensures Seats(a, c, index)
  {
  }

  lemma InstalledSeats(p: Pool, s: Slot)
    requires s !in p.state && p.inSpawn != [] && s.restarts == RestartsOf(p, s.index)
    ensures Seats(p, Installed(p, s), s.index)
  {
  }

  /** The books of spawning itself do not matter. */
  lemma SeatsBegun(a: Pool, b: Pool, c: Pool, index: nat)
    requires b == a.(spawning := b.spawning, inSpawn := b.inSpawn) && Seats(b, c, index)
    ensures Seats(a, c, index)
  {
  }

  lemma IdleFields(a: Pool, b: Pool)
    requires Idle(a, b)
    ensures b.closed == a.closed && b.limit == a.limit && b.disabled == a.disabled && b.slots == a.slots
  {
  }

  lemma SeatsOverOwned(a: Pool, b: Pool, index: nat)
    requires Seats(a, b, index) && index in a.slots && a.slots[index] in a.owned && a.slots[index] in a.state &&
      a.slots[index].index == index
    ensures b.clashed && a.slots[index] in b.owned && index in b.slots && b.slots[index] in b.owned &&
      b.slots[index] != a.slots[index]
  {
  }

  lemma SeatsOpen(a: Pool, b: Pool, index: nat)
    requires Seats(a, b, index)
    ensures b.closed == a.closed && b.disabled == a.disabled
  {
  }

  lemma StaysSeated(a: Pool, b: Pool, index: nat)
    requires Later(a, b) && index in a.slots
    ensures index in b.slots
  {
  }

  /** Spawning here is possible, with nothing alive in the seat. */
  predicate Spawnable(n: nat, p: Pool, index: nat) {
    && !p.closed && index < n && index !in p.disabled
    && (index in p.slots && p.slots[index] in p.state ==>
          var x := p.state[p.slots[index]]; x.dead && !x.restartPlanned && x.ending == Unasked)
  }

  /** The limit is just above this slot, and from it on every slot is dead. */
  ghost predicate Shrinkable(n: nat, p: Pool, m: int) {
    && !p.closed && m > 0 && p.limit == m + 1 && p.limit <= n && m in p.slots && p.slots[m] in p.state
    && p.state[p.slots[m]].dead
    && forall i | i in p.slots && i >= m :: p.slots[i] in p.state && p.slots[i].index == i && p.state[p.slots[i]].dead
  }

  /** Shrinking below it and regrowing spawns over it. */
  ghost predicate Regrowable(n: nat, p: Pool, m: int) {
    Shrinkable(n, p, m) && p.state[p.slots[m]].ending == Unasked && m !in p.disabled
  }

  /** A dead slot whose termination was asked for: growing over it plans a restart. */
  predicate Plannable(n: nat, p: Pool, index: nat) {
    && !p.closed && index < n && index !in p.disabled && index in p.slots && p.slots[index] in p.state
    && var x := p.state[p.slots[index]]; x.dead && !x.restartPlanned && x.ending != Unasked
  }

  /** That restart is planned and its continuation waits, and nothing else happened. */
  ghost predicate Plans(a: Pool, b: Pool, index: nat) {
    && index in a.slots && a.slots[index] in a.state
    && var s := a.slots[index];
       b == WithState(a, s, a.state[s].(restartPlanned := true))
            .(waiting := a.waiting + [s], limit := b.limit, hazard := b.hazard)
  }

  /** Shrinking below it and regrowing plans a restart of it. */
  ghost predicate Replannable(n: nat, p: Pool, m: int) {
    Shrinkable(n, p, m) && p.state[p.slots[m]].ending != Unasked && m !in p.disabled
  }

  /** It has a restart planned again. */
  ghost predicate Replans(a: Pool, b: Pool, m: int) {
    && m in a.slots && a.slots[m] in a.state && b.slots == a.slots && b.state.Keys == a.state.Keys && b.owned == a.owned
    && b.disabled == a.disabled && b.closed == a.closed && b.made == a.made && b.waiting == a.waiting + [a.slots[m]]
    && b.clashed == a.clashed && b.restarts == a.restarts
    && (forall s | s in a.state :: Kept(a.state[s], b.state[s])) && b.state[a.slots[m]].restartPlanned
  }

  lemma PlannableMeans(n: nat, p: Pool, index: nat)
    ensures Plannable(n, p, index) ==>
      && !p.closed && index < n && index !in p.disabled && index in p.slots && p.slots[index] in p.state
      && var x := p.state[p.slots[index]]; x.dead && !x.restartPlanned && x.ending != Unasked
  {
  }

  lemma PlanIsPlanned(a: Pool, b: Pool, index: nat)
    requires index in a.slots && a.slots[index] in a.state
    requires var s := a.slots[index];
             b == WithState(a, s, a.state[s].(restartPlanned := true)).(waiting := a.waiting + [s])
    ensures Plans(a, b, index) && b.limit == a.limit
  {
  }

  lemma PlannableBesides(n: nat, a: Pool, b: Pool, index: nat)
    requires b == a.(hazard := b.hazard)
    ensures Plannable(n, b, index) == Plannable(n, a, index)
  {
  }

  lemma PlansBesides(a: Pool, b: Pool, c: Pool, index: nat)
    requires b == a.(hazard := b.hazard) && Plans(b, c, index)
    ensures Plans(a, c, index)
  {
  }

  lemma PlansLimit(a: Pool, c: Pool, n: nat, index: nat)
    ensures Plans(a, c, index) ==> Plans(a, c.(limit := n), index)
  {
  }

  lemma ReplannableMeans(n: nat, p: Pool, m: int)
    requires Replannable(n, p, m)
    ensures Shrinkable(n, p, m) && m > 0 && !p.closed && m !in p.disabled && m in p.slots && p.slots[m] in p.state
  {
  }

  lemma ReplannableBesides(n: nat, a: Pool, b: Pool, m: int)
    requires b == a.(inSpawn := b.inSpawn)
    ensures Replannable(n, b, m) == Replannable(n, a, m)
  {
  }

  lemma ReplannableIsPlannable(n: nat, a: Pool, b: Pool, m: nat)
    requires Replannable(n, a, m) && Shrunk(a, b, m)
    ensures Plannable(n, b, m) && b.limit == m
  {
  }

  /** The index has a new worker, and a restart of this old slot is planned too. */
  ghost predicate Rearmed(p: Pool, s: Slot) {
    && s in p.state && p.state[s].restartPlanned && p.state[s].ending == Done(true) && !p.closed && s.index < p.limit
    && s.index !in p.disabled && s.index in p.slots && p.slots[s.index] != s && p.slots[s.index] in p.owned
    && p.waiting != [] && p.waiting[|p.waiting| - 1] == s
  }

  /** The slot of the index has left. */
  predicate Vacated(p: Pool, index: nat) {
    index in p.slots && p.slots[index].index == index && p.slots[index] in p.state &&
      p.state[p.slots[index]].ending == Done(true)
  }

  lemma RearmedBySeating(a: Pool, b: Pool, c: Pool, index: nat)
    requires Vacated(a, index) && Replans(a, b, index) && Seats(b, c, index) && !b.closed && index !in b.disabled &&
      index < c.limit
    ensures Rearmed(c, a.slots[index])
  {
  }

  lemma ReplansOpen(a: Pool, b: Pool, m: int)
    requires Replans(a, b, m)
    ensures b.closed == a.closed && b.disabled == a.disabled
  {
  }

  /** A planned restart is taken up or taken back. */
  function Unplanned(p: Pool, s: Slot): Pool
    requires s in p.state
  {
    WithState(p, s, p.state[s].(restartPlanned := false))
  }

  /** The continuation of this slot runs. */
  function Continued(p: Pool, i: nat): Pool
    requires i < |p.waiting| && p.waiting[i] in p.state
  {
    Unplanned(p, p.waiting[i]).(waiting := p.waiting[..i] + p.waiting[i + 1..])
  }

  lemma ContinuedInTwo(p: Pool, i: nat)
    requires i < |p.waiting| && p.waiting[i] in p.state
    ensures var q := p.(waiting := p.waiting[..i] + p.waiting[i + 1..]);
      p.waiting[i] in q.state && Continued(p, i) == Unplanned(q, p.waiting[i])
  {
  }

  lemma StillReplannable(n: nat, p: Pool, s: Slot, waiting: seq<Slot>, m: int)
    requires s in p.state
    ensures Replannable(n, p, m) ==> Replannable(n, Unplanned(p, s), m) && Replannable(n, p.(waiting := waiting), m)
  {
  }

  /** A termination that succeeded at once. */
  function Stopped(p: Pool, s: Slot): Pool
    requires s in p.state
  {
    WithState(p, s, p.state[s].(ending := Done(true)))
  }

  /** A worker that exited by itself: failed, terminated, and its restart planned. */
  function Buried(p: Pool, s: Slot): Pool
    requires s in p.state
  {
    Stopped(WithFailure(p, s, true), s).(failing := p.failing, waiting := p.waiting + [s])
  }

  lemma IdleState(a: Pool, b: Pool, s: Slot)
    ensures Idle(a, b) && s in a.state ==> s in b.state && b.state[s] == a.state[s]
  {
  }

  lemma StoppedAfterIdle(a: Pool, b: Pool, s: Slot)
    requires Idle(a, b) && s in a.state
    ensures s in b.state && Idle(Stopped(a, s), Stopped(b, s))
  {
  }

  /** After its exit a worker's restart can be planned again. */
  lemma ExitArms(n: nat, a: Pool, b: Pool, s: Slot)
    requires s in a.state && Idle(Buried(Gone(a, s), s), b) && IsCurrent(a.slots, s) && !a.closed
    requires 0 < s.index && a.limit == s.index + 1 <= n && s.index !in a.disabled && a.waiting == []
    requires forall i | i in a.slots :: i <= s.index
    ensures Replannable(n, b, s.index) && b.slots == a.slots && b.limit == a.limit && b.waiting == [s]
    ensures s in b.state && b.state[s].restartPlanned && b.state[s].ending == Done(true)
  {
  }

  lemma BuriedInTwo(p: Pool, s: Slot)
    requires s in p.state
    ensures var q := WithFailure(p, s, true);
      s in q.state && Buried(p, s) == Stopped(q, s).(failing := p.failing, waiting := q.waiting + [s])
  {
  }

  lemma BuriedByIdle(a: Pool, b: Pool, c: Pool, s: Slot, before: set<Slot>)
    requires s in a.state && Idle(Stopped(a, s), b) && c == b.(failing := before, waiting := b.waiting + [s])
    ensures Idle(Stopped(a, s).(failing := before, waiting := a.waiting + [s]), c)
  {
  }

  lemma PlansAfterShrinking(a: Pool, b: Pool, c: Pool, m: nat)
    requires Shrunk(a, b, m) && Plans(b, c, m)
    ensures Replans(a, c, m)
  {
  }

  lemma NotSpawnable(n: nat, p: Pool, index: nat)
    requires p.closed || index in p.disabled
    ensures !Spawnable(n, p, index)
  {
  }

  lemma SpawnableBesides(n: nat, a: Pool, b: Pool, i: nat)
    requires b == a.(inSpawn := b.inSpawn)
    ensures Spawnable(n, b, i) == Spawnable(n, a, i)
  {
  }

  lemma SpawnableMeans(n: nat, p: Pool, index: nat)
    ensures Spawnable(n, p, index) ==> !p.closed && index < n && index !in p.disabled
    ensures Spawnable(n, p, index) && index in p.slots && p.slots[index] in p.state ==>
      var x := p.state[p.slots[index]]; x.dead && !x.restartPlanned && x.ending == Unasked
  {
  }

  lemma NotShrinkable(n: nat, p: Pool, m: int)
    requires p.closed
    ensures !Shrinkable(n, p, m)
  {
  }

  lemma ShrinkableMeans(n: nat, p: Pool, m: int)
    requires Shrinkable(n, p, m)
    ensures 0 < m < n && p.limit == m + 1
  {
  }

  lemma SpawnableHazard(n: nat, a: Pool, b: Pool, i: nat)
    requires b == a.(hazard := b.hazard)
    ensures Spawnable(n, b, i) == Spawnable(n, a, i)
  {
  }

  lemma SeatsHazard(a: Pool, b: Pool, c: Pool, index: nat)
    requires b == a.(hazard := b.hazard) && Seats(b, c, index)
    ensures Seats(a, c, index)
  {
  }

  lemma LimitBesides(a: Pool, c: Pool, n: nat, index: nat)
    ensures Seats(a, c, index) ==> Seats(a, c.(limit := n), index)
    ensures Stranded(c, index) ==> Stranded(c.(limit := n), index)
  {
    if Stranded(c, index) {
      var s :| s in c.owned && s.index == index && Abandoned(c, s);
      assert Abandoned(c.(limit := n), s);
    }
  }

  lemma LaterHazard(a: Pool)
    ensures Later(a, a.(hazard := true))
  {
  }

  lemma ClearBesides(a: Pool, n: int)
    ensures Clear(a.(hazard := true), n) == Clear(a, n)
  {
    assert forall i: nat :: ClearAt(a.(hazard := true), i) == ClearAt(a, i);
  }

  lemma ClearMeans(p: Pool, index: nat)
    requires ClearAt(p, index)
    ensures index !in p.inSpawn
  {
  }

  /** Growing over a clear index finds it vacant where it spawns at all. */
  lemma ClearIsVacant(n: nat, p: Pool, index: nat)
    requires Sound(n, p) && ClearAt(p, index)
    requires index in p.slots && p.slots[index] in p.state ==>
      var x := p.state[p.slots[index]]; x.dead && !x.restartPlanned && x.ending == Unasked
    ensures index !in p.inSpawn && (Vacant(p, index) || index in p.disabled)
  {
    if index in p.slots {
      FailingIsUnasked(n, p, p.slots[index]);
      SlotIsOk(n, p, p.slots[index]);
    }
  }

  lemma HazardStays(a: Pool, b: Pool)
    requires Later(a, b)
    ensures a.hazard ==> b.hazard
  {
  }

  lemma AllStayClear(n: nat, a: Pool, b: Pool, from: nat, to: nat)
    requires Sound(n, a) && Later(a, b) && Restored(a, b) && forall i: nat | from <= i < to :: ClearAt(a, i)
    ensures forall i: nat | from <= i < to :: ClearAt(b, i)
  {
    hide Later, ClearAt;
    forall i: nat | from <= i < to
      ensures ClearAt(b, i)
    {
      StaysClear(n, a, b, i);
    }
  }

  lemma SoundLimit(n: nat, p: Pool, l: nat)
    requires Sound(n, p)
    ensures Sound(n, p.(limit := l)) && Later(p, p.(limit := l))
  {
    hide SlotOk, OnePerIndex, Distinct;
    var q := p.(limit := l);
    assert forall t :: StandingOf(q, t) == StandingOf(p, t);
  }

  lemma SoundWaiting(n: nat, p: Pool, s: Slot)
    requires Sound(n, p) && s in p.state
    ensures Sound(n, p.(waiting := p.waiting + [s])) && Later(p, p.(waiting := p.waiting + [s]))
  {
    hide SlotOk, OnePerIndex, Distinct;
    var q := p.(waiting := p.waiting + [s]);
    assert forall t :: StandingOf(q, t) == StandingOf(p, t);
  }

  lemma SoundPlanned(n: nat, p: Pool, s: Slot)
    requires Sound(n, p) && s in p.state && p.state[s].dead && IsCurrent(p.slots, s) &&
      (p.hazard || s.index !in p.inSpawn)
    ensures var q := WithState(p, s, p.state[s].(restartPlanned := true)).(waiting := p.waiting + [s]);
            Sound(n, q) && Later(p, q)
  {
    hide Sound, Later;
    var x := p.state[s].(restartPlanned := true);
    SlotIsOk(n, p, s);
    SoundState(n, p, s, x);
    LaterState(p, s, x);
    var m := WithState(p, s, x);
    SoundWaiting(n, m, s);
    LaterOn(p, m, m.(waiting := m.waiting + [s]));
  }

  lemma ClosedStays(a: Pool, b: Pool)
    requires Later(a, b)
    ensures a.closed ==> b.closed
  {
  }

  /** What quiet calls leave of other slots. */
  lemma CalmKeeps(a: Pool, b: Pool)
    requires Calm(a, b) && Later(a, b)
    ensures b.limit == a.limit && b.slots == a.slots && b.state.Keys == a.state.Keys
    ensures forall s | s in a.state ::
      (b.state[s].restartPlanned ==> a.state[s].restartPlanned) && (a.state[s].retiring ==> b.state[s].retiring) &&
        (a.state[s].dead ==> b.state[s].dead)
  {
  }

  /** The current slots of these indices are on their way out, with no restart planned. */
  ghost predicate Leaving(p: Pool, n: nat, m: nat) {
    forall i | i in p.slots && n <= i < m :: LeavingAt(p, i)
  }

  predicate LeavingAt(p: Pool, i: nat) {
    i in p.slots && p.slots[i] in p.state ==>
      var x := p.state[p.slots[i]]; (x.dead || x.retiring) && !x.restartPlanned
  }

  lemma LeavingOn(a: Pool, b: Pool, n: nat, index: nat)
    requires Leaving(a, n, index) && Calm(a, b) && Later(a, b) && LeavingAt(b, index)
    ensures Leaving(b, n, index + 1)
  {
    forall i | i in b.slots && n <= i < index
      ensures LeavingAt(b, i)
    {
      assert LeavingAt(a, i);
    }
  }

  lemma NothingLeaves(p: Pool, n: nat)
    ensures Leaving(p, n, n)
  {
  }

  lemma TopIsDead(n: nat, a: Pool, b: Pool, m: nat, index: nat)
    requires Shrinkable(n, a, m) && m <= index && (if index == m then b == a.(limit := m) else Shrunk(a, b, m))
    ensures index in b.slots ==> b.slots[index] in b.state && b.state[b.slots[index]].dead
    ensures m in b.slots
  {
  }

  lemma TopIsShrunk(n: nat, a: Pool, b: Pool, c: Pool, m: nat, index: nat)
    requires Shrinkable(n, a, m) && m <= index && (if index == m then b == a.(limit := m) else Shrunk(a, b, m))
    requires if index in b.slots
             then b.slots[index] in b.state &&
               c == WithState(b, b.slots[index], b.state[b.slots[index]].(restartPlanned := false))
             else c == b
    ensures Shrunk(a, c, m)
  {
  }

  lemma TopIsBelow(n: nat, p: Pool, m: int)
    requires Shrinkable(n, p, m)
    ensures m < n
  {
  }

  lemma RegrowableIsShrinkable(n: nat, p: Pool, m: int)
    requires Regrowable(n, p, m)
    ensures Shrinkable(n, p, m) && m > 0
  {
  }

  lemma RegrowableIsSpawnable(n: nat, a: Pool, b: Pool, m: nat)
    requires Regrowable(n, a, m) && Shrunk(a, b, m)
    ensures Spawnable(n, b, m) && b.limit == m
  {
  }

  /** Owned, but no slot of the pool any more and never asked to stop. */
  predicate Abandoned(p: Pool, s: Slot) {
    s in p.state && s in p.owned && !IsCurrent(p.slots, s) && p.state[s].ending == Unasked
  }

  /** Two owners of one index, one of which the pool has lost sight of. */
  ghost predicate Stranded(p: Pool, index: nat) {
    index in p.slots && p.slots[index] in p.owned && exists s :: s in p.owned && s.index == index && Abandoned(p, s)
  }

  lemma SeatedTwice(a: Pool, b: Pool, c: Pool, index: nat)
    requires Seats(a, b, index) && Seats(b, c, index)
    ensures Stranded(c, index) && c.clashed
  {
    var s := b.slots[index];
    assert s in c.state && Kept(b.state[s], c.state[s]);
    assert Abandoned(c, s) && s.index == index;
  }

  lemma SparedIsAbandoned(a: Pool, b: Pool, s: Slot)
    requires Spares(a, b) && Abandoned(a, s)
    ensures Abandoned(b, s)
  {
  }

  /** Slots with distinct indices below `n` are at most `n`. */
  lemma {:induction false} FewIndices(owned: set<Slot>, n: nat)
    requires forall s | s in owned :: s.index < n
    requires forall s, t | s in owned && t in owned && s.index == t.index :: s == t
    ensures |owned| <= n
    decreases n
  {
    if n > 0 {
      if s :| s in owned && s.index == n - 1 {
        FewIndices(owned - {s}, n - 1);
      } else {
        FewIndices(owned, n - 1);
      }
    } else if s :| s in owned {
      assert false;
    }
  }

  // -------------------------------------------------------------------- the object

  class DesktopHashWorkerPool {
    const workerCount: nat
    const host: nat -> Choice
    var clock: nat
    var slots: map<nat, Slot>
    var closed: bool
    var limit: nat
    var disabled: set<nat>
    var restartsBySlot: map<nat, nat>
    var owned: set<Slot>
    var spawning: nat
    var drainRequested: bool
    var drained: bool
    /** Continuations registered on termination promises, one entry each. */
    var waiting: seq<Slot>
    /** Every slot ever made, for late events. */
    var made: seq<Slot>
    ghost var all: set<Slot>
    ghost var failing: set<Slot>
    ghost var inSpawn: seq<nat>
    ghost var hazard: bool
    ghost var clashed: bool
    /** Every time the limit was raised: the pool as it was, and the new limit. */
    ghost var raised: seq<Growth>

    constructor (workerCount: nat, host: nat -> Choice, initialLimit: nat)
      requires 0 < workerCount <= 4 && 0 < initialLimit <= workerCount
      ensures Valid() && this.workerCount == workerCount && this.host == host && clock == 0 && fresh(all)
      ensures raised == [] &&
        Now() == Pool(map[], map[], {}, false, initialLimit, {}, map[], 0, false, false, [], [], {}, [], false, false)
    {
      this.workerCount, this.host, limit := workerCount, host, initialLimit;
      clock, slots, closed, disabled, restartsBySlot, owned := 0, map[], false, {}, map[], {};
      spawning, drainRequested, drained, waiting, made, all := 0, false, false, [], [], {};
      failing, inSpawn, hazard, clashed, raised := {}, [], false, false, [];
    }

    ghost function States(): map<Slot, SlotState>
      reads this`all, all
    {
      map s | s in all :: s.now
    }

    ghost function Now(): Pool
      reads this`slots, this`owned, this`closed, this`limit, this`disabled, this`restartsBySlot, this`spawning,
        this`drainRequested
      reads this`drained, this`waiting, this`made, this`failing, this`inSpawn, this`hazard, this`clashed, this`all, all
    {
      Pool(slots, States(), owned, closed, limit, disabled, restartsBySlot, spawning, drainRequested, drained,
           waiting, made, failing, inSpawn, hazard, clashed)
    }

    ghost predicate Good()
      reads this, all
    {
      Sound(workerCount, Now()) && hazard == AnyUnclear(raised)
    }

    /** Between events nothing is being spawned and nothing is just failing. */
    ghost predicate Valid()
      reads this, all
    {
      Good() && Prompt(Now()) && spawning == 0 && failing == {} && inSpawn == []
    }

    /** New slots are newly allocated. */
    twostate predicate Grown()
      reads this
    {
      old(all) <= all && forall s | s in all :: s in old(all) || fresh(s)
    }

    /** What every call promises; `d` bounds how deep foreign code may nest limit
        changes. */
    twostate predicate Follows(d: nat)
      reads this, all
    {
      && Good() && Grown() && Later(old(Now()), Now()) && Restored(old(Now()), Now())
      && (d == 0 ==> Calm(old(Now()), Now()) && raised == old(raised))
    }

    ghost predicate PlainFrom(a: nat, b: nat) {
      forall n | a <= n < b :: host(n).Plain()
    }

    // ------------------------------------------------------------------ single fields

    method Ask() returns (c: Choice)
      modifies this`clock
      ensures c == host(old(clock)) && clock == old(clock) + 1
    {
      c := host(clock);
      clock := clock + 1;
    }

    method Update(slot: Slot, x: SlotState)
      requires slot in all
      modifies slot`now
      ensures Now() == WithState(old(Now()), slot, x) && slot.now == x
    {
      slot.now := x;
      assert States() == old(States())[slot := x];
    }

    method Disown(slot: Slot)
      modifies this`owned
      ensures Now() == old(Now()).(owned := old(Now()).owned - {slot}) && owned == old(owned) - {slot}
    {
      owned := owned - {slot};
    }

    method Disable(index: nat)
      modifies this`disabled
      ensures Now() == old(Now()).(disabled := old(Now()).disabled + {index}) && index in disabled
    {
      disabled := disabled + {index};
    }

    /** `completeNativeDrainIfReady`. */
    method CompleteDrain()
      modifies this`drained
      ensures drained <==> old(drained) || (closed && owned == {} && spawning == 0 && drainRequested)
      ensures Now() == DrainedIfReady(old(Now()))
    {
      if closed && owned == {} && spawning == 0 && drainRequested { drained := true; }
    }

    /** Ties the snapshot to the fields. */
    lemma Fields()
      ensures var p := Now();
        && p.slots == slots && p.state == States() && p.state.Keys == all && p.owned == owned && p.closed == closed
        && p.limit == limit && p.disabled == disabled && p.restarts == restartsBySlot && p.spawning == spawning
        && p.drainRequested == drainRequested && p.drained == drained && p.waiting == waiting && p.made == made
        && p.failing == failing && p.inSpawn == inSpawn && p.hazard == hazard && p.clashed == clashed
    {
    }

    lemma StateOf(slot: Slot)
      requires slot in all
      ensures slot in Now().state && Now().state[slot] == slot.now
    {
    }

    /** `confirmNativeTermination`. */
    method Confirm(slot: Slot)
      requires Good() && slot in all && slot in Now().state
      modifies this`owned, this`drained, slot`now
      ensures Good() && Now() == DrainedIfReady(Gone(old(Now()), slot)) && (Prompt(old(Now())) ==> Prompt(Now()))
    {
      hide AnyUnclear, Sound, Now, DrainedIfReady, Prompt;
      SoundConfirmed(workerCount, Now(), slot);
      StateOf(slot);
      var x := slot.now;
      Update(slot, x.(nativeTerminated := true, ending := if x.ending == Pending then Done(true) else x.ending));
      Disown(slot);
      CompleteDrain();
    }

    /** One slot changes without growing younger. */
    method Alter(slot: Slot, x: SlotState)
      requires Good() && slot in all && Aged(slot.now, x) && SlotOk(workerCount, StandingOf(Now(), slot), !hazard, x)
      requires (x.restartPlanned ==> slot.now.restartPlanned) && (slot.now.retiring ==> x.retiring)
      modifies slot`now
      ensures Good() && Now() == WithState(old(Now()), slot, x) && slot.now == x
      ensures Later(old(Now()), Now()) && Calm(old(Now()), Now()) && Alone(old(Now()), Now(), slot) &&
        Restored(old(Now()), Now())
    {
      hide AnyUnclear, Sound, Later, Calm, Alone, Now, SlotOk, Aged;
      ghost var a := Now();
      Fields();
      StateOf(slot);
      SoundState(workerCount, a, slot, x);
      LaterState(a, slot, x);
      Update(slot, x);
    }

    /** Settles or opens a termination. */
    method Settle(slot: Slot, e: Ending)
      requires Good() && slot in all && e != Unasked && (e == Done(true) ==> slot.now.nativeTerminated)
      modifies slot`now
      ensures Good() && Now() == WithState(old(Now()), slot, old(slot.now).(ending := e)) &&
        slot.now == old(slot.now).(ending := e)
      ensures Later(old(Now()), Now()) && Calm(old(Now()), Now()) && Alone(old(Now()), Now(), slot) &&
        Restored(old(Now()), Now())
    {
      hide AnyUnclear, Sound, Later, Calm, Alone, Now;
      Fields();
      StateOf(slot);
      SlotIsOk(workerCount, Now(), slot);
      Alter(slot, slot.now.(ending := e));
    }

    method MarkDead(slot: Slot)
      requires Good() && slot in all
      modifies this`failing, slot`now
      ensures Good() && Now() == Died(old(Now()), slot)
      ensures Later(old(Now()), Now()) && Calm(old(Now()), Now()) && Alone(old(Now()), Now(), slot)
    {
      hide AnyUnclear, Sound, Later, Calm, Alone;
      SoundDied(workerCount, Now(), slot);
      Update(slot, slot.now.(dead := true, ready := false, restartPlanned := false, busy := false));
      failing := failing + {slot};
    }

    // --------------------------------------------------------------- foreign code

    /** The foreign code grows the pool by one index. */
    ghost predicate GrowsInside(c: Choice, d: nat)
      reads this, all
    {
      && d > 0 && !c.closes && !c.drains && c.limits == [limit + 1]
      && Spawnable(workerCount, Now(), limit) && PlainFrom(clock, clock + 3)
    }

    /** It shrinks the pool below a dead slot and regrows it. */
    ghost predicate RegrowsInside(c: Choice, d: nat)
      reads this, all
    {
      && d > 0 && !c.closes && !c.drains && c.limits == [limit - 1, limit]
      && Regrowable(workerCount, Now(), limit - 1) && PlainFrom(clock, clock + 3)
    }

    /** It does so to a slot whose termination was asked for. */
    ghost predicate ReplansInside(c: Choice, d: nat)
      reads this, all
    {
      d > 0 && !c.closes && !c.drains && c.limits == [limit - 1, limit] && Replannable(workerCount, Now(), limit - 1)
    }

    /** An observer or the factory acts on the pool: limit changes, to any depth, then
        perhaps closing it. */
    method Foreign(c: Choice, d: nat)
      requires Good()
      modifies this, all
      ensures Follows(d) && (old(closed) ==> closed && Idle(old(Now()), Now()))
      ensures c.Passive() ==> Idle(old(Now()), Now()) && clock == old(clock)
      ensures old(GrowsInside(c, d)) ==>
        Seats(old(Now()), Now(), old(limit)) && limit == old(limit) + 1 && clock == old(clock) + 3
      ensures old(RegrowsInside(c, d)) ==>
        Reseats(old(Now()), Now(), old(limit) - 1) && limit == old(limit) && clock == old(clock) + 3
      ensures old(ReplansInside(c, d)) ==>
        Replans(old(Now()), Now(), old(limit) - 1) && limit == old(limit) && clock == old(clock)
      decreases d, !closed, 2
    {
      hide AnyUnclear, Sound, Later, Calm, Seats, Reseats, Regrowable, Spawnable, Now, Idle, Replannable, Replans;
      ghost var a := Now();
      LaterSelf(a);
      IdleSelf(a);
      if d > 0 { ChangeLimits(c.limits, d); }
      ghost var b := Now();
      LaterSelf(b);
      IdleSelf(b);
      if c.drains {
        CloseAndDrain(d);
      } else if c.closes {
        Close(d);
      }
      LaterOn(a, b, Now());
      if d == 0 { CalmOn(a, b, Now()); }
      if old(closed) { IdleOn(a, b, Now()); }
    }

    /** Lowering the limit, as far as foreign code sees it. */
    method Lower(m: int, d: nat)
      requires Good()
      modifies this, all
      ensures Good() && Grown() && Later(old(Now()), Now()) && Restored(old(Now()), Now())
      ensures old(closed) ==> closed && Idle(old(Now()), Now()) && clock == old(clock)
      ensures old(Shrinkable(workerCount, Now(), m)) ==> Shrunk(old(Now()), Now(), m) && clock == old(clock)
      decreases d, !closed, 24, 0
    {
      hide AnyUnclear, Sound, Later, Now, Seats, Reseats, Spawnable, Shrinkable, Shrunk, Idle, Plannable, Plans,
           NestedGrowth, Stranded, Leaving;
      var ok := SetLimit(m, d);
    }

    /** Raising it. */
    method RaiseTo(n: int, d: nat)
      requires Good()
      modifies this, all
      ensures Good() && Grown() && Later(old(Now()), Now()) && Restored(old(Now()), Now())
      ensures old(closed) ==> closed && Idle(old(Now()), Now()) && clock == old(clock)
      ensures n == old(limit) + 1 && old(Spawnable(workerCount, Now(), limit) && PlainFrom(clock, clock + 3)) ==>
        Seats(old(Now()), Now(), old(limit)) && limit == n && clock == old(clock) + 3
      ensures n == old(limit) + 1 && old(Plannable(workerCount, Now(), limit)) ==>
        Plans(old(Now()), Now(), old(limit)) && limit == n && clock == old(clock)
      decreases d, !closed, 24, 0
    {
      hide AnyUnclear, Sound, Later, Now, Seats, Reseats, Spawnable, Shrinkable, Shrunk, Idle, Plannable, Plans,
           NestedGrowth, Stranded, Leaving;
      var ok := SetLimit(n, d);
    }

    method ChangeTwice(m: int, n: int, d: nat)
      requires Good()
      modifies this, all
      ensures Good() && Grown() && Later(old(Now()), Now()) && Restored(old(Now()), Now())
      ensures old(closed) ==> closed && Idle(old(Now()), Now())
      ensures m == n - 1 && n == old(limit) &&
              old(Regrowable(workerCount, Now(), limit - 1) && PlainFrom(clock, clock + 3)) ==>
        Reseats(old(Now()), Now(), m) && limit == n && clock == old(clock) + 3
      ensures m == n - 1 && n == old(limit) && old(Replannable(workerCount, Now(), limit - 1)) ==>
        Replans(old(Now()), Now(), m) && limit == n && clock == old(clock)
      decreases d, !closed, 24
    {
      hide AnyUnclear, Sound, Later, Now, Seats, Reseats, Regrowable, Spawnable, Shrinkable, Shrunk, Idle, Plannable,
           Plans;
      hide Replannable, Replans, PlainFrom;
      ghost var a := Now();
      Fields();
      ghost var regrows := m == n - 1 && n == limit && Regrowable(workerCount, a, m) && PlainFrom(clock, clock + 3);
      ghost var replans := m == n - 1 && n == limit && Replannable(workerCount, a, m);
      if regrows { RegrowableIsShrinkable(workerCount, a, m); }
      if replans { ReplannableMeans(workerCount, a, m); }
      Lower(m, d);
      ghost var b := Now();
      Fields();
      if regrows { RegrowableIsSpawnable(workerCount, a, b, m); }
      if replans { ReplannableIsPlannable(workerCount, a, b, m); }
      RaiseTo(n, d);
      LaterOn(a, b, Now());
      if old(closed) { IdleOn(a, b, Now()); }
      if regrows { ReseatsAfterShrinking(a, b, Now(), m); }
      if replans { PlansAfterShrinking(a, b, Now(), m); }
    }

    method ChangeLimits(limits: seq<int>, d: nat)
      requires Good() && d > 0
      modifies this, all
      ensures Follows(d) && (old(closed) ==> closed && Idle(old(Now()), Now()))
      ensures limits == [] ==> Idle(old(Now()), Now()) && clock == old(clock)
      ensures limits == [old(limit) + 1] && old(Spawnable(workerCount, Now(), limit) && PlainFrom(clock, clock + 3)) ==>
        Seats(old(Now()), Now(), old(limit)) && limit == old(limit) + 1 && clock == old(clock) + 3
      ensures limits == [old(limit) - 1, old(limit)] &&
              old(Regrowable(workerCount, Now(), limit - 1) && PlainFrom(clock, clock + 3)) ==>
        Reseats(old(Now()), Now(), old(limit) - 1) && limit == old(limit) && clock == old(clock) + 3
      ensures limits == [old(limit) - 1, old(limit)] && old(Replannable(workerCount, Now(), limit - 1)) ==>
        Replans(old(Now()), Now(), old(limit) - 1) && limit == old(limit) && clock == old(clock)
      decreases d, !closed, 1
    {
      hide AnyUnclear, Sound, Later, Calm, Seats, Reseats, Regrowable, Spawnable, Now, Idle, Plannable, Plans,
           Replannable, Replans;
      ghost var a := Now();
      Fields();
      LaterSelf(a);
      IdleSelf(a);
      if limits == [] { return; }
      if |limits| == 1 {
        var ok := SetLimit(limits[0], d - 1);
        Fields();
        return;
      }
      ChangeTwice(limits[0], limits[1], d - 1);
      if |limits| > 2 {
        ghost var b := Now();
        ChangeMore(limits[2..], d);
        LaterOn(a, b, Now());
        if old(closed) { IdleOn(a, b, Now()); }
      }
    }

    method ChangeMore(limits: seq<int>, d: nat)
      requires Good() && d > 0
      modifies this, all
      ensures Good() && Grown() && Later(old(Now()), Now()) && Restored(old(Now()), Now())
      ensures old(closed) ==> closed && Idle(old(Now()), Now())
      decreases d, !closed, 0
    {
      hide AnyUnclear, Sound, Later, Calm, Now, Idle;
      ghost var a := Now();
      LaterSelf(a);
      IdleSelf(a);
      for i := 0 to |limits|
        invariant Good() && Grown() && Later(a, Now()) && Restored(a, Now()) &&
          (old(closed) ==> closed && Idle(a, Now()))
      {
        ghost var b := Now();
        var ok := SetLimit(limits[i], d - 1);
        LaterOn(a, b, Now());
        if old(closed) { IdleOn(a, b, Now()); }
      }
    }

    /** An observer that grows the pool by one index from inside a report. */
    ghost predicate ReportGrows(d: nat)
      reads this, all
    {
      var c := host(clock);
      && d > 0 && !c.closes && !c.drains && c.limits == [limit + 1] && PlainFrom(clock + 1, clock + 4)
      && Spawnable(workerCount, Now(), limit)
    }

    /** One that shrinks it below a dead slot and regrows it. */
    ghost predicate ReportRegrows(d: nat)
      reads this, all
    {
      var c := host(clock);
      && d > 0 && !c.closes && !c.drains && c.limits == [limit - 1, limit] && PlainFrom(clock + 1, clock + 4)
      && Regrowable(workerCount, Now(), limit - 1)
    }

    /** And one that does so to a slot whose termination was asked for. */
    ghost predicate ReportReplans(d: nat)
      reads this, all
    {
      var c := host(clock);
      d > 0 && !c.closes && !c.drains && c.limits == [limit - 1, limit] && Replannable(workerCount, Now(), limit - 1)
    }

    /** `report`. */
    method Report(d: nat)
      requires Good()
      modifies this, all
      ensures Follows(d) && (old(closed) ==> closed && Idle(old(Now()), Now()))
      ensures host(old(clock)).Passive() ==> Idle(old(Now()), Now()) && clock == old(clock) + 1
      ensures old(ReportGrows(d)) ==>
        Seats(old(Now()), Now(), old(limit)) && limit == old(limit) + 1 && clock == old(clock) + 4
      ensures old(ReportRegrows(d)) ==>
        Reseats(old(Now()), Now(), old(limit) - 1) && limit == old(limit) && clock == old(clock) + 4
      ensures old(ReportReplans(d)) ==>
        Replans(old(Now()), Now(), old(limit) - 1) && limit == old(limit) && clock == old(clock) + 1
      decreases d, !closed, 3
    {
      hide AnyUnclear, Sound, Later, Calm, Seats, Reseats, Regrowable, Spawnable, Now, Idle, Replannable, Replans;
      var c := Ask();
      Foreign(c, d);
    }

    // ----------------------------------------------------------------- termination

    /** A termination that failed: the index is disabled for this session. */
    method FailEnding(slot: Slot, d: nat)
      requires Good() && slot in all
      modifies this, all
      ensures Follows(d) && slot.now.ending == Done(false) && slot.index in disabled
      ensures old(closed) ==> closed && Alone(old(Now()), Now(), slot)
      decreases d, !closed, 4
    {
      hide AnyUnclear, Sound, Later, Calm, Now, Idle, Alone;
      ghost var a := Now();
      SoundDisabled(workerCount, a, slot.index);
      Disable(slot.index);
      ghost var b := Now();
      Report(d);
      ghost var c := Now();
      Fields();
      Settle(slot, Done(false));
      LaterOn(a, b, c);
      LaterOn(a, c, Now());
      DisabledStays(b, c);
      if d == 0 {
        CalmOn(a, b, c);
        CalmOn(a, c, Now());
      }
      if old(closed) {
        AloneDisabled(a, slot.index, slot);
        IdleMeans(b, c, slot);
        AloneOn(a, b, c, slot);
        AloneOn(a, c, Now(), slot);
      }
    }

    /** A worker that stops at once. */
    method StopNow(slot: Slot)
      requires Good() && slot in all && slot.now.ending == Unasked
      modifies this`owned, this`drained, slot`now
      ensures Good() && Later(old(Now()), Now()) && Calm(old(Now()), Now()) && Restored(old(Now()), Now())
      ensures Alone(old(Now()), Now(), slot) && slot.now.ending != Unasked
    {
      hide AnyUnclear, Sound, Later, Calm, Now, Alone, DrainedIfReady, Gone;
      ghost var a := Now();
      StateOf(slot);
      Confirm(slot);
      StateOf(slot);
      Update(slot, slot.now.(ending := Done(true)));
      StoppedNow(workerCount, a, Now(), slot);
    }

    /** A promised termination is settled or still pending. */
    method Await(slot: Slot, timer: bool, d: nat)
      requires Good() && slot in all && slot.now.ending == Unasked
      modifies this, all
      ensures Follows(d) && slot.now.ending != Unasked
      ensures old(closed) ==> closed && Alone(old(Now()), Now(), slot)
      ensures timer ==>
        Alone(old(Now()), Now(), slot) && owned == old(owned) && slot.now.ending == Pending && clashed == old(clashed)
      decreases d, !closed, 5
    {
      hide AnyUnclear, Sound, Later, Calm, Now, Alone;
      ghost var a := Now();
      if timer {
        AwaitExit(slot);
        return;
      }
      FailEnding(slot, d);
      ghost var b := Now();
      Promise(slot);
      LaterOn(a, b, Now());
      if d == 0 { CalmOn(a, b, Now()); }
      if old(closed) {
        ClosedStays(b, Now());
        AloneOn(a, b, Now(), slot);
      }
      Fields();
    }

    /** With a timer running, the exit is awaited. */
    method AwaitExit(slot: Slot)
      requires Good() && slot in all && slot.now.ending == Unasked
      modifies slot`now
      ensures Good() && Later(old(Now()), Now()) && Calm(old(Now()), Now()) && Restored(old(Now()), Now())
      ensures Alone(old(Now()), Now(), slot) && slot.now.ending == Pending
    {
      hide AnyUnclear, Sound, Later, Calm, Alone, Now;
      Fields();
      StateOf(slot);
      SlotIsOk(workerCount, Now(), slot);
      Alter(slot, slot.now.(ending := Pending, promised := true));
    }

    method Promise(slot: Slot)
      requires Good() && slot in all
      modifies slot`now
      ensures Good() && Later(old(Now()), Now()) && Calm(old(Now()), Now()) && Alone(old(Now()), Now(), slot)
      ensures Restored(old(Now()), Now()) && slot.now == old(slot.now).(promised := true)
    {
      hide AnyUnclear, Sound, Later, Calm, Alone, Now;
      Fields();
      StateOf(slot);
      SlotIsOk(workerCount, Now(), slot);
      Alter(slot, slot.now.(promised := true));
    }

    /** `terminate`: at most one request per slot; a success is a confirmed exit. */
    method Terminate(slot: Slot, d: nat)
      requires Good() && slot in all
      modifies this, all
      ensures Follows(d) && slot.now.ending != Unasked
      ensures old(closed) ==> closed && Alone(old(Now()), Now(), slot)
      ensures old(slot.now.ending) == Unasked && !old(slot.now.nativeTerminated) && host(old(clock)).stop == Promised &&
              host(old(clock)).timer ==>
        Alone(old(Now()), Now(), slot) && owned == old(owned) && slot.now.ending == Pending && clashed == old(clashed)
      ensures old(slot.now.ending) == Unasked && old(slot.now.nativeTerminated) ==>
        slot in old(Now()).state && Now() == Stopped(old(Now()), slot) && clock == old(clock)
      decreases d, !closed, 6
    {
      hide AnyUnclear, Sound, Later, Calm, Now, Alone;
      StateOf(slot);
      LaterSelf(Now());
      AloneSelf(Now(), slot);
      if slot.now.ending != Unasked { return; }
      if slot.now.nativeTerminated {
        Settle(slot, Done(true));
        return;
      }
      var c := Ask();
      if c.stop == Throws {
        FailEnding(slot, d);
      } else if c.stop == Immediate {
        StopNow(slot);
      } else {
        Await(slot, c.timer, d);
      }
    }

    ghost method NoLongerFailing(slot: Slot, before: set<Slot>)
      requires Good() && slot in all && failing == before + {slot} && slot.now.ending != Unasked
      modifies this`failing
      ensures Good() && Now() == old(Now()).(failing := before)
    {
      hide AnyUnclear, Sound;
      SoundAsked(workerCount, Now(), slot, before);
      failing := before;
    }

    /** Terminates a slot that was just taken out of service. */
    method StopDead(slot: Slot, ghost before: set<Slot>, d: nat)
      requires Good() && slot in all && failing == before + {slot}
      modifies this, all
      ensures d == 0 ==> raised == old(raised)
      ensures Good() && Grown() && Later(old(Now()), Now()) && failing == before && inSpawn == old(inSpawn) &&
        spawning == old(spawning)
      ensures slot.now.ending != Unasked && (d == 0 ==> Calm(old(Now()), Now()))
      ensures old(closed) ==> closed && Alone(old(Now()), Now(), slot)
      decreases d, !closed, 7
    {
      hide AnyUnclear, Sound, Later, Calm, Now, Alone;
      ghost var a := Now();
      Fields();
      Terminate(slot, d);
      ghost var b := Now();
      Fields();
      NoLongerFailing(slot, before);
      LaterBesides(a, b, before, b.inSpawn);
      if old(closed) { AloneBesides(a, b, slot, before); }
      Fields();
    }

    /** Takes a slot out of service and terminates it. */
    method Kill(slot: Slot, d: nat)
      requires Good() && slot in all
      modifies this, all
      ensures Follows(d) && slot.now.dead && slot.now.ending != Unasked
      ensures d == 0 || old(closed) ==> !slot.now.restartPlanned
      ensures old(closed) ==> closed && Alone(old(Now()), Now(), slot)
      decreases d, !closed, 8
    {
      hide AnyUnclear, Sound, Later, Calm, Now, Alone;
      ghost var a := Now();
      StateOf(slot);
      Fields();
      MarkDead(slot);
      ghost var b := Now();
      StateOf(slot);
      Fields();
      StopDead(slot, a.failing, d);
      Fields();
      StateOf(slot);
      LaterOn(a, b, Now());
      AgedSlot(b, Now(), slot);
      if d == 0 {
        CalmOn(a, b, Now());
        CalmSlot(b, Now(), slot);
      }
      if old(closed) {
        AloneOn(a, b, Now(), slot);
        AloneSlot(b, Now(), slot);
      }
    }

    // ------------------------------------------------------------------- closing

    method SetClosed()
      modifies this`closed
      ensures Now() == old(Now()).(closed := true) && closed
    {
      closed := true;
    }

    /** The body of `close` for an open pool. */
    method KillAll(d: nat)
      requires Good() && closed
      modifies this, all
      ensures d == 0 ==> raised == old(raised)
      ensures Good() && Grown() && Later(old(Now()), Now()) && Restored(old(Now()), Now())
      ensures Calm(old(Now()), Now()) && Spares(old(Now()), Now()) && AllDead(Now()) && closed
      decreases d, !closed, 9
    {
      hide AnyUnclear, Sound, Later, Calm, Now, Alone, Spares;
      ghost var a := Now();
      LaterSelf(a);
      Fields();
      CurrentIsKnown(workerCount, a);
      var indices := slots.Keys;
      while indices != {}
        invariant d == 0 ==> raised == old(raised)
        invariant Good() && closed && all == old(all) && slots == old(slots) && Later(a, Now()) && Restored(a, Now()) &&
          Calm(a, Now())
        invariant Spares(a, Now()) && indices <= slots.Keys
        invariant forall i | i in slots && i !in indices ::
          slots[i] in all && slots[i].now.dead && !slots[i].now.restartPlanned && slots[i].now.ending != Unasked
        decreases indices
      {
        ghost var b := Now();
        Fields();
        var i :| i in indices;
        indices := indices - {i};
        var slot := slots[i];
        Kill(slot, d);
        Fields();
        LaterOn(a, b, Now());
        AloneIsCalm(b, Now(), slot);
        CalmOn(a, b, Now());
        SparesOn(a, b, Now(), slot);
      }
      Fields();
    }

    /** `close`: every current slot is dead, unplanned and being terminated; other
        workers are left alone. */
    method Close(d: nat)
      requires Good()
      modifies this, all
      ensures Follows(d) && closed && Spares(old(Now()), Now()) && Calm(old(Now()), Now())
      ensures if old(closed) then Idle(old(Now()), Now()) else AllDead(Now())
      decreases d, !closed, 0
    {
      hide AnyUnclear, Sound, Later, Calm, Now, Spares, AllDead, Idle;
      ghost var a := Now();
      LaterSelf(a);
      IdleSelf(a);
      if closed { return; }
      SoundClosed(workerCount, a);
      SetClosed();
      ghost var b := Now();
      KillAll(d);
      LaterOn(a, b, Now());
      CalmOn(a, b, Now());
      SparesThrough(a, b, Now());
    }

    method RequestDrain()
      modifies this`drainRequested
      ensures Now() == old(Now()).(drainRequested := true) && drainRequested
    {
      drainRequested := true;
    }

    /** `closeAndDrainNative`: requested once, resolved by `CompleteDrain` alone. */
    method CloseAndDrain(d: nat)
      requires Good()
      modifies this, all
      ensures Follows(d) && closed && drainRequested && Spares(old(Now()), Now()) && Calm(old(Now()), Now())
      ensures old(closed) ==> Idle(old(Now()), Now())
      decreases d, !closed, 1
    {
      hide AnyUnclear, Sound, Later, Calm, Now, Spares, AllDead;
      ghost var a := Now();
      Fields();
      LaterSelf(a);
      if drainRequested && closed { return; }
      SoundRequested(workerCount, a);
      RequestDrain();
      LaterSelf(Now());
      Fields();
      if !closed { Close(d); }
      ghost var c := Now();
      Fields();
      RequestedStays(a.(drainRequested := true), c);
      SoundDrained(workerCount, c);
      CompleteDrain();
      LaterRequested(a, c);
      BesidesDrain(a, c);
      Fields();
    }

    // ---------------------------------------------------------------------- spawning

    method BeginSpawn()
      modifies this`spawning
      ensures Now() == old(Now()).(spawning := old(Now()).spawning + 1) && spawning == old(spawning) + 1
    {
      spawning := spawning + 1;
    }

    method EndSpawn()
      requires spawning > 0
      modifies this`spawning
      ensures Now() == old(Now()).(spawning := if old(Now()).spawning == 0 then 0 else old(Now()).spawning - 1) &&
        spawning == old(spawning) - 1
    {
      spawning := spawning - 1;
    }

    ghost method StartSpawning(index: nat)
      requires Good() && (hazard || (Vacant(Now(), index) && index !in inSpawn))
      modifies this`inSpawn
      ensures Good() && Now() == old(Now()).(inSpawn := old(Now()).inSpawn + [index]) &&
        inSpawn == old(inSpawn) + [index]
    {
      hide AnyUnclear, Sound, Vacant;
      SoundSpawning(workerCount, Now(), index);
      inSpawn := inSpawn + [index];
    }

    ghost method StopSpawning()
      requires Good() && inSpawn != []
      modifies this`inSpawn
      ensures Good() && Now() == old(Now()).(inSpawn := old(inSpawn[..|inSpawn| - 1])) &&
        inSpawn == old(inSpawn[..|inSpawn| - 1])
    {
      hide AnyUnclear, Sound;
      SoundUnspawning(workerCount, Now());
      inSpawn := inSpawn[..|inSpawn| - 1];
    }

    /** The pool's books take note of a new worker. */
    method Enlist(slot: Slot)
      requires slot !in all && slot.now == NEW_SLOT
      modifies this`all, this`made, this`owned
      ensures all == old(all) + {slot} && Now() == Enlisted(old(Now()), slot)
    {
      owned, all, made := owned + {slot}, all + {slot}, made + [slot];
      assert States() == old(States())[slot := NEW_SLOT];
    }

    method TakeSeat(slot: Slot, ghost taken: bool)
      requires Now().spawning > 0 && Now().inSpawn != []
      modifies this`slots, this`spawning, this`clashed, this`inSpawn
      ensures Now() == SeatTaken(old(Now()), slot, taken)
    {
      hide States;
      clashed := clashed || taken;
      slots := slots[slot.index := slot];
      spawning, inSpawn := spawning - 1, inSpawn[..|inSpawn| - 1];
    }

    /** Seats a new worker, whatever sits there. */
    method Install(index: nat) returns (slot: Slot)
      requires Good() && index < workerCount && spawning > 0 && inSpawn != [] && inSpawn[|inSpawn| - 1] == index
      modifies this`slots, this`owned, this`all, this`made, this`spawning, this`clashed, this`inSpawn
      ensures Good() && fresh(slot) && slot.index == index && slot.restarts == RestartsOf(old(Now()), index)
      ensures old(Now()).inSpawn != [] && Now() == Installed(old(Now()), slot) && all == old(all) + {slot}
    {
      hide AnyUnclear, Sound, Now, Installed, Enlisted, SeatTaken;
      ghost var a := Now();
      Fields();
      slot := new Slot(index, if index in restartsBySlot then restartsBySlot[index] else 0);
      assert slot !in all;
      SoundInstalled(workerCount, a, slot);
      ghost var taken := index in slots && slots[index] in owned;
      InstalledInTwo(a, slot);
      Enlist(slot);
      TakeSeat(slot, taken);
    }

    /** The factory call. */
    method CallFactory(d: nat) returns (built: bool)
      requires Good()
      modifies this, all
      ensures Follows(d) && (old(closed) ==> closed && Idle(old(Now()), Now())) && built == host(old(clock)).factory
      ensures host(old(clock)).Passive() ==> Idle(old(Now()), Now()) && clock == old(clock) + 1
      decreases d, !closed, 3
    {
      hide AnyUnclear, Sound, Later, Calm, Seats, Reseats, Regrowable, Spawnable, Now, Idle;
      var c := Ask();
      Foreign(c, d);
      built := c.factory;
    }

    method FailAttached(slot: Slot, d: nat)
      requires Good() && slot in all
      modifies this, all
      ensures Follows(d)
      decreases d, !closed, 10
    {
      hide AnyUnclear, Sound, Later, Calm, Now, Alone, Idle, Seats, Reseats;
      ghost var a := Now();
      Fields();
      MarkDead(slot);
      ghost var b := Now();
      Fields();
      ReportAndStop(slot, a.failing, d);
      LaterOn(a, b, Now());
      if d == 0 { CalmOn(a, b, Now()); }
      Fields();
    }

    method ReportAndStop(slot: Slot, ghost before: set<Slot>, d: nat)
      requires Good() && slot in all && failing == before + {slot}
      modifies this, all
      ensures d == 0 ==> raised == old(raised)
      ensures Good() && Grown() && Later(old(Now()), Now()) && failing == before && inSpawn == old(inSpawn) &&
        spawning == old(spawning)
      ensures d == 0 ==> Calm(old(Now()), Now())
      decreases d, !closed, 9
    {
      hide AnyUnclear, Sound, Later, Calm, Now, Alone, Idle, Seats, Reseats, Regrowable, Spawnable, PlainFrom;
      ghost var a := Now();
      Fields();
      Report(d);
      ghost var b := Now();
      Fields();
      StopDead(slot, before, d);
      LaterOn(a, b, Now());
      if d == 0 { CalmOn(a, b, Now()); }
      Fields();
    }

    /** After the worker exists: listeners, unless the pool was closed meanwhile. */
    method Attach(slot: Slot, d: nat) returns (ok: bool)
      requires Good() && slot in all
      modifies this, all
      ensures Follows(d)
      ensures !old(closed) && host(old(clock)).listeners ==> ok && Idle(old(Now()), Now()) && clock == old(clock) + 1
      decreases d, !closed, 11
    {
      hide AnyUnclear, Sound, Later, Calm, Now, Alone, Idle, Seats, Reseats;
      ghost var a := Now();
      LaterSelf(a);
      IdleSelf(a);
      var c := Ask();
      if closed {
        Kill(slot, d);
        return true;
      }
      if c.listeners { return true; }
      SoundDisabled(workerCount, a, slot.index);
      Disable(slot.index);
      ghost var b := Now();
      FailAttached(slot, d);
      LaterOn(a, b, Now());
      if d == 0 { CalmOn(a, b, Now()); }
      return false;
    }

    /** A spawn ends without a worker. */
    method GiveUp()
      requires Good() && spawning > 0 && inSpawn != []
      modifies this`spawning, this`drained, this`inSpawn
      ensures Good() && Later(old(Now()), Now()) && Calm(old(Now()), Now()) && failing == old(failing)
      ensures spawning == old(spawning) - 1 && inSpawn == old(inSpawn[..|inSpawn| - 1])
    {
      hide AnyUnclear, Sound, Later, Calm, Now, DrainedIfReady;
      ghost var a := Now();
      Fields();
      SoundEnded(workerCount, a);
      EndSpawn();
      CompleteDrain();
      ghost var b := Now();
      StopSpawning();
      LaterBesides(a, b, b.failing, inSpawn);
      Fields();
    }

    /** The factory's failure: the index is disabled. */
    method FactoryFailed(index: nat, d: nat)
      requires Good() && spawning > 0 && inSpawn != []
      modifies this, all
      ensures d == 0 ==> raised == old(raised)
      ensures Good() && Grown() && Later(old(Now()), Now()) && failing == old(failing) && spawning == old(spawning) - 1
      ensures inSpawn == old(inSpawn[..|inSpawn| - 1]) && (d == 0 ==> Calm(old(Now()), Now()))
      decreases d, !closed, 10
    {
      hide AnyUnclear, Sound, Later, Calm, Now, Idle, Seats, Reseats;
      ghost var a := Now();
      GiveUp();
      ghost var c := Now();
      Fields();
      SoundDisabled(workerCount, c, index);
      Disable(index);
      ghost var e := Now();
      Report(d);
      LaterOn(a, c, e);
      LaterOn(a, e, Now());
      Fields();
      if d == 0 {
        CalmOn(a, c, e);
        CalmOn(a, e, Now());
      }
    }

    /** The factory call and what follows it. */
    method Construct(index: nat, d: nat) returns (ok: bool)
      requires Good() && !closed && index < workerCount && inSpawn != [] && inSpawn[|inSpawn| - 1] == index
      modifies this, all
      ensures d == 0 ==> raised == old(raised)
      ensures Good() && Grown() && Later(old(Now()), Now()) && failing == old(failing) && spawning == old(spawning)
      ensures inSpawn == old(inSpawn[..|inSpawn| - 1]) &&
        (d == 0 ==> limit == old(limit) && slots.Keys <= old(slots).Keys + {index}) && (ok ==> index in slots)
      ensures host(old(clock)).Plain() && host(old(clock) + 1).Plain() ==>
        ok && Seats(old(Now()), Now(), index) && limit == old(limit) && clock == old(clock) + 2
      decreases d, !closed, 14
    {
      hide AnyUnclear, Sound, Later, Calm, Now, Idle, Seats, Reseats;
      ghost var a := Now();
      Fields();
      SoundBegun(workerCount, a);
      BeginSpawn();
      ghost var b := Now();
      Fields();
      ok := Build(index, d);
      LaterOn(a, b, Now());
      if host(old(clock)).Plain() && host(old(clock) + 1).Plain() { SeatsBegun(a, b, Now(), index); }
    }

    method Build(index: nat, d: nat) returns (ok: bool)
      requires Good() && !closed && index < workerCount && spawning > 0 && inSpawn != [] &&
        inSpawn[|inSpawn| - 1] == index
      modifies this, all
      ensures d == 0 ==> raised == old(raised)
      ensures Good() && Grown() && Later(old(Now()), Now()) && failing == old(failing) && spawning == old(spawning) - 1
      ensures inSpawn == old(inSpawn[..|inSpawn| - 1]) &&
        (d == 0 ==> limit == old(limit) && slots.Keys <= old(slots).Keys + {index}) && (ok ==> index in slots)
      ensures host(old(clock)).Plain() && host(old(clock) + 1).Plain() ==>
        ok && Seats(old(Now()), Now(), index) && limit == old(limit) && clock == old(clock) + 2
      decreases d, !closed, 13
    {
      hide AnyUnclear, Sound, Later, Calm, Now, Idle, Seats, Reseats;
      ghost var a := Now();
      Fields();
      var built := CallFactory(d);
      ghost var b := Now();
      Fields();
      if host(old(clock)).Plain() { IdleFields(a, b); }
      if d == 0 { CalmLimit(a, b); }
      if built {
        ok := Occupy(index, d);
        if host(old(clock)).Plain() && host(old(clock) + 1).Plain() { SeatsAfterIdle(a, b, Now(), index); }
      } else {
        FactoryFailed(index, d);
        ok := false;
        if d == 0 { CalmLimit(b, Now()); }
      }
      LaterOn(a, b, Now());
      Fields();
    }

    /** The new worker is seated and its listeners are attached. */
    method Occupy(index: nat, d: nat) returns (ok: bool)
      requires Good() && index < workerCount && spawning > 0 && inSpawn != [] && inSpawn[|inSpawn| - 1] == index
      modifies this, all
      ensures d == 0 ==> raised == old(raised)
      ensures Good() && Grown() && Later(old(Now()), Now()) && failing == old(failing) && spawning == old(spawning) - 1
      ensures inSpawn == old(inSpawn[..|inSpawn| - 1]) &&
        (d == 0 ==> limit == old(limit) && slots.Keys <= old(slots).Keys + {index}) && (ok ==> index in slots)
      ensures !old(closed) && host(old(clock)).Plain() ==>
        ok && Seats(old(Now()), Now(), index) && limit == old(limit) && clock == old(clock) + 1
      decreases d, !closed, 12
    {
      hide AnyUnclear, Sound, Later, Calm, Now, Idle, Seats, Reseats, Installed;
      ghost var a := Now();
      Fields();
      var slot := Install(index);
      ghost var b := Now();
      Fields();
      LaterInstalled(workerCount, a, slot);
      InstalledMeans(a, slot);
      InstalledSeats(a, slot);
      ok := Attach(slot, d);
      Fields();
      LaterOn(a, b, Now());
      StaysSeated(b, Now(), index);
      if d == 0 { CalmLimit(b, Now()); }
      if !old(closed) && host(old(clock)).Plain() {
        IdleAfterSeats(a, b, Now(), index);
        IdleFields(b, Now());
      }
    }

    /** The starting report of the next index will grow the pool over it. */
    ghost predicate NestedGrowth(index: nat, d: nat)
      reads this, all
    {
      index == limit && ReportGrows(d) && PlainFrom(clock + 4, clock + 6)
    }

    /** The starting report of a restart will have it planned again. */
    ghost predicate NestedPlan(index: nat, d: nat)
      reads this, all
    {
      && index == limit - 1 && ReportReplans(d) && PlainFrom(clock + 1, clock + 3)
      && index in slots && slots[index].index == index && slots[index] in all && slots[index].now.ending == Done(true)
    }

    /** `spawn`: a worker is seated after its report and its factory call, during which
        foreign code may act on the pool; it is owned from then on. */
    method Spawn(index: nat, d: nat) returns (ok: bool)
      requires Good() && index < workerCount
      requires hazard || closed || index in disabled || (Vacant(Now(), index) && index !in inSpawn)
      modifies this, all
      ensures d == 0 ==> raised == old(raised)
      ensures Good() && Grown() && Later(old(Now()), Now()) && Restored(old(Now()), Now())
      ensures (d == 0 ==> limit == old(limit) && slots.Keys <= old(slots).Keys + {index}) && (ok ==> index in slots)
      ensures old(!closed && index !in disabled && PlainFrom(clock, clock + 3)) ==>
        ok && Seats(old(Now()), Now(), index) && limit == old(limit) && clock == old(clock) + 3
      ensures old(NestedGrowth(index, d)) ==> ok && Stranded(Now(), index) && clashed
      ensures old(NestedPlan(index, d)) ==> ok && Rearmed(Now(), old(slots[index])) && clock == old(clock) + 3
      decreases d, !closed, 17
    {
      hide AnyUnclear, Sound, Later, Calm, Now, Seats, Reseats, Vacant, Spawnable, Stranded, Replannable, Rearmed,
           PlainFrom;
      ghost var a := Now();
      Fields();
      LaterSelf(a);
      NotNested(index, d);
      if closed || index in disabled { return false; }
      ok := SpawnOpen(index, d);
    }

    lemma NotNested(index: nat, d: nat)
      ensures NestedGrowth(index, d) || NestedPlan(index, d) ==> !closed && index !in disabled
    {
      if NestedPlan(index, d) { ReplannableMeans(workerCount, Now(), limit - 1); }
    }

    ghost method MarkSpawn(index: nat, d: nat)
      requires Good() && index < workerCount && (hazard || (Vacant(Now(), index) && index !in inSpawn))
      modifies this`inSpawn
      ensures Good() && Later(old(Now()), Now()) && inSpawn == old(inSpawn) + [index]
      ensures Now() == old(Now()).(inSpawn := old(inSpawn) + [index])
      ensures (old(NestedGrowth(index, d)) ==> NestedGrowth(index, d)) &&
        (old(NestedPlan(index, d)) ==> NestedPlan(index, d))
    {
      hide AnyUnclear, Sound, Later, Now, Vacant, Spawnable, Replannable, PlainFrom;
      ghost var a := Now();
      Fields();
      LaterSelf(a);
      StartSpawning(index);
      ghost var b := Now();
      Fields();
      LaterBesides(a, a, a.failing, b.inSpawn);
      SpawnableBesides(workerCount, a, b, limit);
      ReplannableBesides(workerCount, a, b, limit - 1);
    }

    /** `spawn` of an enabled index in an open pool. */
    method SpawnOpen(index: nat, d: nat) returns (ok: bool)
      requires Good() && index < workerCount && !closed && index !in disabled
      requires hazard || (Vacant(Now(), index) && index !in inSpawn)
      modifies this, all
      ensures d == 0 ==> raised == old(raised)
      ensures Good() && Grown() && Later(old(Now()), Now()) && Restored(old(Now()), Now())
      ensures (d == 0 ==> limit == old(limit) && slots.Keys <= old(slots).Keys + {index}) && (ok ==> index in slots)
      ensures old(PlainFrom(clock, clock + 3)) ==>
        ok && Seats(old(Now()), Now(), index) && limit == old(limit) && clock == old(clock) + 3
      ensures old(NestedGrowth(index, d)) ==> ok && Stranded(Now(), index) && clashed
      ensures old(NestedPlan(index, d)) ==> ok && Rearmed(Now(), old(slots[index])) && clock == old(clock) + 3
      decreases d, !closed, 17, 0
    {
      hide AnyUnclear, Sound, Later, Now, Seats, Reseats, Vacant, Stranded, Rearmed, NestedGrowth, NestedPlan;
      ghost var a := Now();
      Fields();
      MarkSpawn(index, d);
      ghost var b := Now();
      Fields();
      ok := SpawnMarked(index, d);
      LaterOn(a, b, Now());
      Fields();
      if old(PlainFrom(clock, clock + 3)) {
        assert host(old(clock)).Plain() && host(old(clock) + 1).Plain() && host(old(clock) + 2).Plain();
        SeatsBegun(a, b, Now(), index);
      }
    }

    /** After the starting report: nothing if it closed the pool or disabled the index. */
    method Conclude(index: nat, d: nat) returns (ok: bool)
      requires Good() && index < workerCount && inSpawn != [] && inSpawn[|inSpawn| - 1] == index
      modifies this, all
      ensures d == 0 ==> raised == old(raised)
      ensures Good() && Grown() && Later(old(Now()), Now()) && failing == old(failing) && spawning == old(spawning)
      ensures inSpawn == old(inSpawn[..|inSpawn| - 1]) &&
        (d == 0 ==> limit == old(limit) && slots.Keys <= old(slots).Keys + {index}) && (ok ==> index in slots)
      ensures !old(closed) && index !in old(disabled) && host(old(clock)).Plain() && host(old(clock) + 1).Plain() ==>
        ok && Seats(old(Now()), Now(), index) && limit == old(limit) && clock == old(clock) + 2
      decreases d, !closed, 15
    {
      hide AnyUnclear, Sound, Later, Calm, Now, Seats, Reseats;
      ghost var a := Now();
      LaterSelf(a);
      if closed || index in disabled {
        ok := false;
        StopSpawning();
        LaterBesides(a, a, a.failing, inSpawn);
      } else {
        ok := Construct(index, d);
      }
    }

    /** The rest of `spawn`, with the index marked as being spawned. */
    method SpawnMarked(index: nat, d: nat) returns (ok: bool)
      requires Good() && index < workerCount && !closed && index !in disabled && inSpawn != [] &&
        inSpawn[|inSpawn| - 1] == index
      modifies this, all
      ensures d == 0 ==> raised == old(raised)
      ensures Good() && Grown() && Later(old(Now()), Now()) && failing == old(failing) && spawning == old(spawning)
      ensures inSpawn == old(inSpawn[..|inSpawn| - 1]) &&
        (d == 0 ==> limit == old(limit) && slots.Keys <= old(slots).Keys + {index}) && (ok ==> index in slots)
      ensures host(old(clock)).Plain() && host(old(clock) + 1).Plain() && host(old(clock) + 2).Plain() ==>
        ok && Seats(old(Now()), Now(), index) && limit == old(limit) && clock == old(clock) + 3
      ensures old(NestedGrowth(index, d)) ==> ok && Stranded(Now(), index) && clashed
      ensures old(NestedPlan(index, d)) ==> ok && Rearmed(Now(), old(slots[index])) && clock == old(clock) + 3
      decreases d, !closed, 16
    {
      hide AnyUnclear, Sound, Later, Calm, Now, Idle, Seats, Reseats, Stranded, Replans, Rearmed, NestedGrowth,
           NestedPlan, Vacated;
      ghost var a := Now();
      Fields();
      ghost var nested, replans := NestedGrowth(index, d), NestedPlan(index, d);
      ReportStart(index, d);
      ghost var b := Now();
      Fields();
      ok := Conclude(index, d);
      LaterOn(a, b, Now());
      Fields();
      if replans { RearmedBySeating(a, b, Now(), index); }
      if nested { SeatedTwice(a, b, Now(), index); }
      if host(old(clock)).Plain() && host(old(clock) + 1).Plain() && host(old(clock) + 2).Plain() {
        SeatsAfterIdle(a, b, Now(), index);
      }
    }

    /** The starting report, and what it leaves if it does not disturb the rest. */
    method ReportStart(index: nat, d: nat)
      requires Good() && !closed && index !in disabled
      modifies this, all
      ensures Follows(d) && (d == 0 ==> limit == old(limit) && slots == old(slots))
      ensures host(old(clock)).Plain() ==>
        Idle(old(Now()), Now()) && !closed && index !in disabled && limit == old(limit) && clock == old(clock) + 1
      ensures old(NestedGrowth(index, d)) ==>
        && Seats(old(Now()), Now(), index) && !closed && index !in disabled && clock == old(clock) + 4
        && host(old(clock) + 4).Plain() && host(old(clock) + 5).Plain()
      ensures old(NestedPlan(index, d)) ==>
        && Replans(old(Now()), Now(), index) && !closed && index !in disabled && index < limit
        && clock == old(clock) + 1
        && host(old(clock) + 1).Plain() && host(old(clock) + 2).Plain()
        && old(Vacated(Now(), index))
      decreases d, !closed, 15
    {
      hide AnyUnclear, Sound, Later, Calm, Now, Idle, Seats, Reseats, Spawnable, Regrowable, Replannable, Replans;
      ghost var a := Now();
      Fields();
      ghost var nested, replans := NestedGrowth(index, d), NestedPlan(index, d);
      if replans { StateOf(slots[index]); }
      Report(d);
      ghost var b := Now();
      Fields();
      if host(old(clock)).Plain() { IdleFields(a, b); }
      if d == 0 { CalmLimit(a, b); }
      if nested { SeatsOpen(a, b, index); }
      if replans { ReplansOpen(a, b, index); }
    }

    // ------------------------------------------------------------------ limit changes

    method MoveLimit(n: nat)
      modifies this`limit
      ensures Now() == old(Now()).(limit := n) && limit == n
    {
      limit := n;
    }

    /** Shrinking: slots above the limit retire, busy ones after their job. */
    method ShrinkSlot(slot: Slot, d: nat)
      requires Good() && slot in all
      modifies this, all
      ensures Follows(d) && (d == 0 ==> (slot.now.dead || slot.now.retiring) && !slot.now.restartPlanned)
      ensures old(slot.now.dead) ==>
        Now() == WithState(old(Now()), slot, old(slot.now).(restartPlanned := false)) && clock == old(clock)
      decreases d, !closed, 18
    {
      hide AnyUnclear, Sound, Later, Calm, Alone, Now;
      Fields();
      StateOf(slot);
      SlotIsOk(workerCount, Now(), slot);
      if slot.now.dead {
        Alter(slot, slot.now.(restartPlanned := false));
      } else if slot.now.busy {
        Alter(slot, slot.now.(retiring := true));
      } else {
        Kill(slot, d);
      }
    }

    method ShrinkAt(index: nat, n: nat, d: nat)
      requires Good() && n <= index && (d == 0 ==> Leaving(Now(), n, index))
      modifies this, all
      ensures d == 0 ==> raised == old(raised)
      ensures Good() && Grown() && Later(old(Now()), Now()) && Restored(old(Now()), Now()) && (old(closed) ==> closed)
      ensures d == 0 ==> limit == old(limit) && slots == old(slots) && all == old(all) && Leaving(Now(), n, index + 1)
      ensures index !in old(slots) ==> Now() == old(Now()) && clock == old(clock)
      ensures index in old(slots) && old(slots[index] in all && slots[index].now.dead) ==>
        Now() == WithState(old(Now()), old(slots[index]), old(slots[index].now).(restartPlanned := false)) &&
          clock == old(clock)
      decreases d, !closed, 19
    {
      hide AnyUnclear, Sound, Later, Calm, Now, Alone, Leaving;
      ghost var a := Now();
      Fields();
      LaterSelf(a);
      CurrentIsKnown(workerCount, a);
      if index in slots {
        ShrinkSlot(slots[index], d);
        Fields();
        ClosedStays(a, Now());
        if d == 0 {
          CalmLimit(a, Now());
          CalmKeeps(a, Now());
          StateOf(slots[index]);
        }
      }
      if d == 0 { LeavingOn(a, Now(), n, index); }
    }

    method Shrink(n: nat, d: nat)
      requires Good() && n <= workerCount
      modifies this, all
      ensures d == 0 ==> raised == old(raised)
      ensures Good() && Grown() && Later(old(Now()), Now()) && Restored(old(Now()), Now())
      ensures d == 0 ==> limit == n && slots == old(slots) && Leaving(Now(), n, workerCount)
      ensures old(Shrinkable(workerCount, Now(), n)) ==> Shrunk(old(Now()), Now(), n) && clock == old(clock)
      decreases d, !closed, 21
    {
      hide AnyUnclear, Sound, Later, Now, Shrinkable, Shrunk, Leaving;
      ghost var a := Now();
      SoundLimit(workerCount, a, n);
      MoveLimit(n);
      ghost var top := Shrinkable(workerCount, a, n);
      NothingLeaves(Now(), n);
      for index := n to workerCount
        invariant d == 0 ==> raised == old(raised)
        invariant Good() && Grown() && Later(a, Now()) && Restored(a, Now()) && (old(closed) ==> closed)
        invariant d == 0 ==> limit == n && slots == old(slots) && Leaving(Now(), n, index)
        invariant top ==> (if index == n then Now() == a.(limit := n) else Shrunk(a, Now(), n)) && clock == old(clock)
      {
        ghost var b := Now();
        ShrinkTop(a, index, n, top, d);
        LaterOn(a, b, Now());
      }
      if top { TopIsBelow(workerCount, a, n); }
    }

    /** The same, with what it means if everything from here on is dead. */
    method ShrinkTop(ghost a: Pool, index: nat, n: nat, ghost top: bool, d: nat)
      requires Good() && n <= index && (d == 0 ==> Leaving(Now(), n, index))
      requires top ==>
        Shrinkable(workerCount, a, n) && (if index == n then Now() == a.(limit := n) else Shrunk(a, Now(), n))
      modifies this, all
      ensures d == 0 ==> raised == old(raised)
      ensures Good() && Grown() && Later(old(Now()), Now()) && Restored(old(Now()), Now()) && (old(closed) ==> closed)
      ensures d == 0 ==> limit == old(limit) && slots == old(slots) && Leaving(Now(), n, index + 1)
      ensures top ==> Shrunk(a, Now(), n) && clock == old(clock)
      decreases d, !closed, 20
    {
      hide AnyUnclear, Sound, Later, Now, Shrinkable, Shrunk, Leaving;
      ghost var b := Now();
      Fields();
      if top { TopIsDead(workerCount, a, b, n, index); }
      ShrinkAt(index, n, d);
      if top { TopIsShrunk(workerCount, a, b, Now(), n, index); }
    }

    /** A dead slot whose termination is under way restarts when that settles. */
    method PlanRestart(slot: Slot)
      requires Good() && slot in all && slot.now.dead && IsCurrent(slots, slot) && (hazard || slot.index !in inSpawn)
      modifies slot`now, this`waiting
      ensures Good() && Later(old(Now()), Now()) && Restored(old(Now()), Now()) && slot.now.restartPlanned
      ensures slot in old(Now()).state
      ensures Now() == WithState(old(Now()), slot, old(Now()).state[slot].(restartPlanned := true))
                       .(waiting := old(Now()).waiting + [slot])
    {
      hide AnyUnclear, Sound, Later, Now;
      ghost var a := Now();
      Fields();
      StateOf(slot);
      SoundPlanned(workerCount, a, slot);
      Update(slot, slot.now.(restartPlanned := true));
      Register(slot);
    }

    /** A continuation is registered on the slot's termination. */
    method Register(slot: Slot)
      modifies this`waiting
      ensures Now() == old(Now()).(waiting := old(Now()).waiting + [slot]) && waiting == old(waiting) + [slot]
    {
      waiting := waiting + [slot];
    }

    method Reactivate(slot: Slot)
      requires Good() && slot in all
      modifies slot`now
      ensures Good() && Later(old(Now()), Now()) && Restored(old(Now()), Now())
    {
      hide AnyUnclear, Sound, Later, Now;
      StateOf(slot);
      SlotIsOk(workerCount, Now(), slot);
      SoundState(workerCount, Now(), slot, slot.now.(retiring := false));
      LaterState(Now(), slot, slot.now.(retiring := false));
      Update(slot, slot.now.(retiring := false));
    }

    /** Growing by one index: its slot is kept, restarted after its termination, or
        spawned. */
    method GrowSlot(index: nat, d: nat) returns (ok: bool, spawned: Option<Slot>, reactivated: Option<Slot>)
      requires Good() && index < workerCount && (hazard || ClearAt(Now(), index))
      modifies this, all
      ensures d == 0 ==> raised == old(raised)
      ensures Good() && Grown() && Later(old(Now()), Now()) && Restored(old(Now()), Now()) &&
        (d == 0 ==> limit == old(limit))
      ensures (spawned.Some? ==> spawned.value in all) && (reactivated.Some? ==> reactivated.value in all)
      ensures old(Spawnable(workerCount, Now(), index) && PlainFrom(clock, clock + 3)) ==>
        ok && Seats(old(Now()), Now(), index) && limit == old(limit) && clock == old(clock) + 3
      ensures old(NestedGrowth(index, d)) ==> ok && Stranded(Now(), index) && clashed
      ensures old(Plannable(workerCount, Now(), index)) ==>
        ok && Plans(old(Now()), Now(), index) && limit == old(limit) && clock == old(clock)
      decreases d, !closed, 18
    {
      hide AnyUnclear, Sound, Later, Calm, Now, Seats, Reseats, Vacant, Spawnable, Stranded, ClearAt, Plannable, Plans,
           PlainFrom;
      ghost var a := Now();
      Fields();
      CurrentIsKnown(workerCount, a);
      SpawnableMeans(workerCount, a, index);
      PlannableMeans(workerCount, a, index);
      if index in slots {
        var slot := slots[index];
        StateOf(slot);
        if !slot.now.dead || slot.now.restartPlanned || slot.now.ending != Unasked {
          ok, reactivated := Revive(slot);
          spawned := None;
          return;
        }
      }
      if !hazard { ClearIsVacant(workerCount, a, index); }
      spawned, reactivated := None, None;
      ok := Spawn(index, d);
      if ok {
        CurrentIsKnown(workerCount, Now());
        Fields();
        spawned := Some(slots[index]);
      }
    }

    /** The slot of a regained index is kept, or restarted after its termination. */
    method Revive(slot: Slot) returns (ok: bool, reactivated: Option<Slot>)
      requires Good() && slot in all && IsCurrent(slots, slot) && (hazard || ClearAt(Now(), slot.index))
      requires !slot.now.dead || slot.now.restartPlanned || slot.now.ending != Unasked
      modifies slot`now, this`waiting
      ensures Good() && Later(old(Now()), Now()) && Restored(old(Now()), Now())
      ensures reactivated.Some? ==> reactivated.value in all
      ensures old(Plannable(workerCount, Now(), slot.index)) ==> ok && Plans(old(Now()), Now(), slot.index)
    {
      hide AnyUnclear, Sound, Later, Now, ClearAt, Plannable, Plans;
      ghost var a := Now();
      Fields();
      LaterSelf(a);
      StateOf(slot);
      PlannableMeans(workerCount, a, slot.index);
      ok, reactivated := true, None;
      if !slot.now.dead {
        if slot.now.retiring { reactivated := Some(slot); }
        Reactivate(slot);
        return;
      }
      if slot.now.restartPlanned { return; }
      if slot.index in disabled { return false, None; }
      if !hazard { ClearMeans(a, slot.index); }
      PlanRestart(slot);
      PlanIsPlanned(a, Now(), slot.index);
      return true, Some(slot);
    }

    method RetireAll(spawned: seq<Slot>, d: nat)
      requires Good() && forall i | 0 <= i < |spawned| :: spawned[i] in all
      modifies this, all
      ensures d == 0 ==> raised == old(raised)
      ensures Good() && Grown() && Later(old(Now()), Now()) && Restored(old(Now()), Now()) &&
        (d == 0 ==> limit == old(limit)) && (old(closed) ==> closed)
      decreases d, !closed, 19
    {
      hide AnyUnclear, Sound, Later, Calm, Now, Alone;
      ghost var a := Now();
      LaterSelf(a);
      for i := 0 to |spawned|
        invariant d == 0 ==> raised == old(raised)
        invariant Good() && Grown() && Later(a, Now()) && Restored(a, Now()) && (d == 0 ==> limit == old(limit)) &&
          (old(closed) ==> closed)
      {
        if !spawned[i].now.dead {
          ghost var b := Now();
          Fields();
          Kill(spawned[i], d);
          LaterOn(a, b, Now());
          ClosedStays(b, Now());
          Fields();
          if d == 0 { CalmLimit(b, Now()); }
        }
      }
    }

    method ReleaseAll(reactivated: seq<Slot>, d: nat)
      requires Good() && forall i | 0 <= i < |reactivated| :: reactivated[i] in all
      modifies this, all
      ensures d == 0 ==> raised == old(raised)
      ensures Good() && Grown() && Later(old(Now()), Now()) && Restored(old(Now()), Now()) &&
        (d == 0 ==> limit == old(limit))
      decreases d, !closed, 19
    {
      hide AnyUnclear, Sound, Later, Calm, Now, Alone;
      ghost var a := Now();
      LaterSelf(a);
      for i := 0 to |reactivated|
        invariant d == 0 ==> raised == old(raised)
        invariant Good() && Grown() && Later(a, Now()) && Restored(a, Now()) && (d == 0 ==> limit == old(limit)) &&
          (old(closed) ==> closed)
      {
        ghost var b := Now();
        Fields();
        ShrinkSlot(reactivated[i], d);
        LaterOn(a, b, Now());
        ClosedStays(b, Now());
        Fields();
        if d == 0 { CalmLimit(b, Now()); }
      }
    }

    /** A failed growth is taken back. */
    method RollBack(spawned: seq<Slot>, reactivated: seq<Slot>, d: nat)
      requires Good() && (forall i | 0 <= i < |spawned| :: spawned[i] in all) &&
        (forall i | 0 <= i < |reactivated| :: reactivated[i] in all)
      modifies this, all
      ensures d == 0 ==> raised == old(raised)
      ensures Good() && Grown() && Later(old(Now()), Now()) && Restored(old(Now()), Now()) &&
        (d == 0 ==> limit == old(limit))
      decreases d, !closed, 20
    {
      hide AnyUnclear, Sound, Later, Now;
      ghost var a := Now();
      RetireAll(spawned, d);
      ghost var b := Now();
      ReleaseAll(reactivated, d);
      LaterOn(a, b, Now());
    }

    /** One index of a growth to `n`, which leaves the others as clear as they were. */
    method GrowNext(index: nat, n: nat, d: nat) returns (ok: bool, spawned: Option<Slot>, reactivated: Option<Slot>)
      requires Good() && index < n <= workerCount && (hazard || forall i: nat | index <= i < n :: ClearAt(Now(), i))
      modifies this, all
      ensures d == 0 ==> raised == old(raised)
      ensures Good() && Grown() && Later(old(Now()), Now()) && Restored(old(Now()), Now())
      ensures (d == 0 ==> limit == old(limit)) && (old(closed) ==> closed)
      ensures (spawned.Some? ==> spawned.value in all) && (reactivated.Some? ==> reactivated.value in all)
      ensures hazard || forall i: nat | index <= i < n :: ClearAt(Now(), i)
      ensures old(Spawnable(workerCount, Now(), index) && PlainFrom(clock, clock + 3)) ==>
        ok && Seats(old(Now()), Now(), index) && clock == old(clock) + 3
      ensures old(NestedGrowth(index, d)) ==> ok && Stranded(Now(), index) && clashed
      ensures old(Plannable(workerCount, Now(), index)) ==>
        ok && Plans(old(Now()), Now(), index) && limit == old(limit) && clock == old(clock)
      decreases d, !closed, 19
    {
      hide AnyUnclear, Sound, Later, Calm, Now, Seats, Reseats, Spawnable, Stranded, Regrowable, ClearAt, Plannable,
           Plans;
      ghost var a := Now();
      Fields();
      ok, spawned, reactivated := GrowSlot(index, d);
      Fields();
      ClosedStays(a, Now());
      HazardStays(a, Now());
      if !hazard { AllStayClear(workerCount, a, Now(), index, n); }
    }

    method Grow(n: nat, d: nat) returns (ok: bool)
      requires Good() && limit < n <= workerCount && (hazard || Clear(Now(), n))
      modifies this, all
      ensures d == 0 ==> raised == old(raised)
      ensures Good() && Grown() && Later(old(Now()), Now()) && Restored(old(Now()), Now())
      ensures d == 0 || ok ==> limit == if ok then n else old(limit)
      ensures n == old(limit) + 1 && old(Spawnable(workerCount, Now(), limit) && PlainFrom(clock, clock + 3)) ==>
        ok && Seats(old(Now()), Now(), old(limit)) && clock == old(clock) + 3
      ensures n == old(limit) + 1 && old(NestedGrowth(limit, d)) ==> ok && Stranded(Now(), old(limit)) && clashed
      ensures n == old(limit) + 1 && old(Plannable(workerCount, Now(), limit)) ==>
        ok && Plans(old(Now()), Now(), old(limit)) && clock == old(clock)
      decreases d, !closed, 21
    {
      hide AnyUnclear, Sound, Later, Calm, Now, Seats, Reseats, Spawnable, Stranded, Regrowable, Clear, NestedGrowth,
           PlainFrom, Plannable, Plans;
      ghost var a := Now();
      Fields();
      var spawned, reactivated;
      ok, spawned, reactivated := GrowAll(n, d);
      ghost var c := Now();
      if !ok {
        RollBack(spawned, reactivated, d);
        LaterOn(a, c, Now());
        return;
      }
      SoundLimit(workerCount, c, n);
      MoveLimit(n);
      LaterOn(a, c, Now());
      LimitBesides(a, c, n, old(limit));
      PlansLimit(a, c, n, old(limit));
    }

    method GrowAll(n: nat, d: nat) returns (ok: bool, spawned: seq<Slot>, reactivated: seq<Slot>)
      requires Good() && limit < n <= workerCount && (hazard || Clear(Now(), n))
      modifies this, all
      ensures d == 0 ==> raised == old(raised) && limit == old(limit)
      ensures Good() && Grown() && Later(old(Now()), Now()) && Restored(old(Now()), Now())
      ensures (forall i | 0 <= i < |spawned| :: spawned[i] in all) &&
        (forall i | 0 <= i < |reactivated| :: reactivated[i] in all)
      ensures old(closed) ==> closed
      ensures n == old(limit) + 1 && old(Spawnable(workerCount, Now(), limit) && PlainFrom(clock, clock + 3)) ==>
        ok && Seats(old(Now()), Now(), old(limit)) && clock == old(clock) + 3
      ensures n == old(limit) + 1 && old(NestedGrowth(limit, d)) ==> ok && Stranded(Now(), old(limit)) && clashed
      ensures n == old(limit) + 1 && old(Plannable(workerCount, Now(), limit)) ==>
        ok && Plans(old(Now()), Now(), old(limit)) && clock == old(clock)
      decreases d, !closed, 20
    {
      hide AnyUnclear, Sound, Later, Calm, Now, Seats, Reseats, Spawnable, Stranded, Regrowable, ClearAt, NestedGrowth,
           PlainFrom, Plannable, Plans;
      ghost var a := Now();
      Fields();
      LaterSelf(a);
      ghost var plain := n == limit + 1 && Spawnable(workerCount, a, limit) && PlainFrom(clock, clock + 3);
      ghost var nested := n == limit + 1 && NestedGrowth(limit, d);
      ghost var planned := n == limit + 1 && Plannable(workerCount, a, limit);
      spawned, reactivated := [], [];
      for index := limit to n
        invariant d == 0 ==> raised == old(raised) && limit == old(limit)
        invariant Good() && Grown() && Later(a, Now()) && Restored(a, Now()) && (old(closed) ==> closed)
        invariant (forall i | 0 <= i < |spawned| :: spawned[i] in all) &&
          (forall i | 0 <= i < |reactivated| :: reactivated[i] in all)
        invariant hazard || forall i: nat | index <= i < n :: ClearAt(Now(), i)
        invariant index == old(limit) ==>
          Now() == a && clock == old(clock) && limit == old(limit) && (nested ==> NestedGrowth(limit, d))
        invariant index == n && plain ==> Seats(a, Now(), old(limit)) && clock == old(clock) + 3
        invariant index == n && planned ==> Plans(a, Now(), old(limit)) && clock == old(clock)
        invariant index == n && nested ==> Stranded(Now(), old(limit)) && clashed
      {
        ghost var b := Now();
        var seated, kept;
        ok, seated, kept := GrowNext(index, n, d);
        LaterOn(a, b, Now());
        if seated.Some? { spawned := spawned + [seated.value]; }
        if kept.Some? { reactivated := reactivated + [kept.value]; }
        if !ok { return; }
      }
      ok := true;
    }

    /** Raising the limit over an index that is not clear is recorded. */
    ghost method Alarm(n: int)
      requires Good()
      modifies this`hazard, this`raised
      ensures raised == old(raised) + [Growth(old(Now()), n)]
      ensures Good() && (hazard || Clear(Now(), n)) && Now() == old(Now()).(hazard := hazard)
      ensures Later(old(Now()), Now()) && (hazard <==> old(hazard) || !Clear(old(Now()), n))
    {
      hide AnyUnclear, Sound, Clear, Later;
      ghost var a := Now();
      OneMoreRaise(raised, Growth(a, n));
      raised := raised + [Growth(a, n)];
      SoundHazard(workerCount, a);
      LaterHazard(a);
      LaterSelf(a);
      ClearBesides(a, n);
      if !Clear(a, n) { hazard := true; }
    }

    /** Raising the limit. */
    method Raise(n: nat, d: nat) returns (ok: bool)
      requires Good() && limit < n <= workerCount
      modifies this, all
      ensures Good() && Grown() && Later(old(Now()), Now()) && Restored(old(Now()), Now())
      ensures d == 0 || ok ==> limit == if ok then n else old(limit)
      ensures d == 0 ==> raised == old(raised) + [Growth(old(Now()), n)]
      ensures n == old(limit) + 1 && old(Spawnable(workerCount, Now(), limit) && PlainFrom(clock, clock + 3)) ==>
        ok && Seats(old(Now()), Now(), old(limit)) && clock == old(clock) + 3
      ensures n == old(limit) + 1 && old(NestedGrowth(limit, d)) ==> ok && Stranded(Now(), old(limit)) && clashed
      ensures n == old(limit) + 1 && old(Plannable(workerCount, Now(), limit)) ==>
        ok && Plans(old(Now()), Now(), old(limit)) && clock == old(clock)
      decreases d, !closed, 22
    {
      hide AnyUnclear, Sound, Later, Calm, Now, Seats, Reseats, Spawnable, Stranded, Regrowable, Clear, PlainFrom,
           Plannable, Plans;
      ghost var a := Now();
      Fields();
      ghost var plain := n == limit + 1 && Spawnable(workerCount, a, limit) && PlainFrom(clock, clock + 3);
      Alarm(n);
      ghost var b := Now();
      SpawnableHazard(workerCount, a, b, limit);
      PlannableBesides(workerCount, a, b, limit);
      ghost var planned := n == limit + 1 && Plannable(workerCount, a, limit);
      ok := Grow(n, d);
      LaterOn(a, b, Now());
      if planned { PlansBesides(a, b, Now(), old(limit)); }
      if plain { SeatsHazard(a, b, Now(), old(limit)); }
    }

    /** Raising the limit by one spawns, undisturbed, over a dead worker that is still owned. */
    ghost predicate RaisesOver()
      reads this, all
    {
      && Spawnable(workerCount, Now(), limit) && PlainFrom(clock, clock + 3)
      && limit in slots && slots[limit] in owned && slots[limit] in all && slots[limit].index == limit
    }

    /** `setActiveWorkerLimit`. */
    method SetLimit(n: int, d: nat) returns (ok: bool)
      requires Good()
      modifies this, all
      ensures Good() && Grown() && Later(old(Now()), Now()) && Restored(old(Now()), Now())
      ensures old(closed) ==> ok && closed && Idle(old(Now()), Now()) && clock == old(clock)
      ensures n == old(limit) + 1 && old(Spawnable(workerCount, Now(), limit) && PlainFrom(clock, clock + 3)) ==>
        ok && Seats(old(Now()), Now(), old(limit)) && limit == n && clock == old(clock) + 3
      ensures old(Shrinkable(workerCount, Now(), n)) ==> ok && Shrunk(old(Now()), Now(), n) && clock == old(clock)
      ensures n == old(limit) + 1 && old(NestedGrowth(limit, d)) ==> ok && Stranded(Now(), old(limit)) && clashed
      ensures !old(closed) && !(0 < n <= workerCount) ==> !ok
      ensures d == 0 ==> limit == if ok && !old(closed) then n else old(limit)
      ensures d == 0 ==>
        raised == old(raised) + if !old(closed) && old(limit) < n <= workerCount then [Growth(old(Now()), n)] else []
      ensures d == 0 && ok && !old(closed) && n < old(limit) ==> 0 < n && Leaving(Now(), n, workerCount)
      ensures n == old(limit) + 1 && old(Plannable(workerCount, Now(), limit)) ==>
        ok && Plans(old(Now()), Now(), old(limit)) && limit == n && clock == old(clock)
      ensures n == old(limit) + 1 && old(RaisesOver()) ==> ok && clashed && OwnedTwice(old(slots[limit]))
      decreases d, !closed, 23
    {
      hide AnyUnclear, Sound, Later, Calm, Now, Seats, Reseats, Spawnable, Stranded, Regrowable, Shrinkable, Shrunk,
           Idle, Clear, Plannable, Plans;
      ghost var a := Now();
      Fields();
      LaterSelf(a);
      IdleSelf(a);
      if closed {
        NotSpawnable(workerCount, a, limit);
        PlannableMeans(workerCount, a, limit);
        NotShrinkable(workerCount, a, n);
        return true;
      }
      if Spawnable(workerCount, a, limit) { SpawnableMeans(workerCount, a, limit); }
      PlannableMeans(workerCount, a, limit);
      if Shrinkable(workerCount, a, n) { ShrinkableMeans(workerCount, a, n); }
      if n <= 0 || n > workerCount { return false; }
      if n > limit {
        ghost var over := n == limit + 1 && RaisesOver();
        if over { StateOf(slots[limit]); }
        ok := Raise(n, d);
        if over { SeatsOverOwned(a, Now(), old(limit)); }
        Fields();
      } else {
        if n < limit { Shrink(n, d); }
        ok := true;
      }
    }

    // ------------------------------------------------------- failures and restarts

    /** A crash or exit of a ready worker within the limit is retried, three times. */
    ghost predicate Recoverable(slot: Slot, crash: bool)
      reads this, slot
    {
      crash && slot.now.ready && !closed && !slot.now.retiring && slot.index < limit &&
        slot.restarts < MAX_RESTARTS_PER_SLOT
    }

    method NoteRestart(slot: Slot, retrying: bool)
      modifies this`restartsBySlot, this`disabled
      ensures Now() == old(Now()).(
        restarts := if retrying then old(Now()).restarts[slot.index := slot.restarts + 1] else old(Now()).restarts,
        disabled := if retrying then old(Now()).disabled else old(Now()).disabled + {slot.index})
    {
      if retrying {
        restartsBySlot := restartsBySlot[slot.index := slot.restarts + 1];
      } else {
        disabled := disabled + {slot.index};
      }
    }

    ghost method StartFailing(slot: Slot)
      modifies this`failing
      ensures Now() == old(Now()).(failing := old(Now()).failing + {slot})
    {
      failing := failing + {slot};
    }

    /** The bookkeeping of a failure before anyone is told. */
    method MarkFailed(slot: Slot, crash: bool, ghost d: nat)
      requires Good() && slot in all && !slot.now.dead
      modifies this`restartsBySlot, this`disabled, this`failing, slot`now
      ensures Good() && Later(old(Now()), Now()) && slot in Now().state && Now().state[slot] == slot.now &&
        failing == old(failing) + {slot}
      ensures slot.now ==
        old(slot.now).(dead := true, ready := false, busy := false, restartPlanned := old(Recoverable(slot, crash)))
      ensures old(Recoverable(slot, crash)) || slot.index in disabled
      ensures old(RegrowsOnFailure(slot, crash, d)) ==> RegrowsOver(slot, d)
      ensures slot in old(Now()).state && Now() == WithFailure(old(Now()), slot, old(Recoverable(slot, crash)))
      ensures old(ExitsPlain(slot, crash)) ==> StopsAtOnce(slot, false)
    {
      hide AnyUnclear, Sound, Later, Now, Regrowable, PlainFrom, WithFailure;
      ghost var a := Now();
      Fields();
      StateOf(slot);
      if RegrowsOnFailure(slot, crash, d) { FailedIsRegrowable(workerCount, a, slot); }
      FailedMeans(a, slot, Recoverable(slot, crash));
      MarkDown(slot, crash);
      Fields();
      StateOf(slot);
    }

    method MarkDown(slot: Slot, crash: bool)
      requires Good() && slot in all && !slot.now.dead
      modifies this`restartsBySlot, this`disabled, this`failing, slot`now
      ensures Good() && Later(old(Now()), Now())
      ensures slot in old(Now()).state && Now() == WithFailure(old(Now()), slot, old(Recoverable(slot, crash)))
      ensures slot.now ==
        old(slot.now).(dead := true, ready := false, busy := false, restartPlanned := old(Recoverable(slot, crash)))
    {
      hide AnyUnclear, Sound, Later, Now, WithFailure;
      ghost var a := Now();
      Fields();
      StateOf(slot);
      var retrying := crash && slot.now.ready && !closed && !slot.now.retiring && slot.index < limit &&
        slot.restarts < MAX_RESTARTS_PER_SLOT;
      SoundFailed(workerCount, a, slot, retrying);
      RecordFailure(slot, retrying);
      Fields();
    }

    method RecordFailure(slot: Slot, retrying: bool)
      requires slot in all && slot in Now().state
      modifies this`restartsBySlot, this`disabled, this`failing, slot`now
      ensures Now() == WithFailure(old(Now()), slot, retrying)
      ensures slot.now == old(slot.now).(dead := true, ready := false, busy := false, restartPlanned := retrying)
    {
      hide AnyUnclear, Now;
      StateOf(slot);
      Update(slot, slot.now.(dead := true, ready := false, busy := false, restartPlanned := retrying));
      NoteRestart(slot, retrying);
      StartFailing(slot);
    }

    /** The worker sits at the top, just failing and still owned, and the report of its
        failure lowers the limit below it and raises it again. */
    ghost predicate RegrowsOver(slot: Slot, d: nat)
      reads this, all, slot
    {
      && ReportRegrows(d) && slot in owned && IsCurrent(slots, slot) && slot.index == limit - 1
      && slot.now.ending == Unasked
      && !slot.now.nativeTerminated && host(clock + 4).stop == Promised && host(clock + 4).timer
    }

    /** The worker has exited already, and nobody acts on the report. */
    ghost predicate StopsAtOnce(slot: Slot, exhausted: bool)
      reads this, slot
    {
      !exhausted && host(clock).Passive() && slot.now.ending == Unasked && slot.now.nativeTerminated
    }

    /** The reports of a failure, then the termination. */
    method FailSlot(slot: Slot, exhausted: bool, d: nat)
      requires Good() && slot in all
      modifies this, all
      ensures Follows(d) && slot.now.ending != Unasked
      ensures !exhausted && old(RegrowsOver(slot, d)) ==> OwnedTwice(slot) && clashed
      ensures old(StopsAtOnce(slot, exhausted)) ==>
        slot in old(Now()).state && Idle(Stopped(old(Now()), slot), Now()) && clock == old(clock) + 1
    {
      hide AnyUnclear, Sound, Later, Calm, Now, Alone, Idle, Seats, Reseats, Regrowable, PlainFrom, Stopped;
      ghost var a := Now();
      Fields();
      StateOf(slot);
      ghost var regrows := !exhausted && RegrowsOver(slot, d);
      ReportFailure(exhausted, d);
      ghost var b := Now();
      Fields();
      ghost var atOnce := old(StopsAtOnce(slot, exhausted));
      if atOnce { StoppedAfterIdle(a, b, slot); }
      IdleState(a, b, slot);
      if regrows { KeptSlot(a, b, slot, slot.index); }
      StateOf(slot);
      Terminate(slot, d);
      Fields();
      LaterOn(a, b, Now());
      if d == 0 { CalmOn(a, b, Now()); }
      if regrows { SeatedOver(a, b, Now(), slot); }
    }

    method ReportFailure(exhausted: bool, d: nat)
      requires Good()
      modifies this, all
      ensures Follows(d)
      ensures !exhausted && old(ReportRegrows(d)) ==>
        Reseats(old(Now()), Now(), old(limit) - 1) && limit == old(limit) && clock == old(clock) + 4
      ensures !exhausted && host(old(clock)).Passive() ==> Idle(old(Now()), Now()) && clock == old(clock) + 1
    {
      hide AnyUnclear, Sound, Later, Calm, Now, Idle, Seats, Reseats, Regrowable, PlainFrom;
      ghost var a := Now();
      Report(d);
      if exhausted {
        ghost var b := Now();
        Report(d);
        LaterOn(a, b, Now());
        if d == 0 { CalmOn(a, b, Now()); }
      }
    }

    /** A failed worker is reported and terminated; a continuation waits for that. */
    method Bury(slot: Slot, exhausted: bool, ghost before: set<Slot>, d: nat)
      requires Good() && slot in all && failing == before + {slot}
      modifies this, all
      ensures d == 0 ==> raised == old(raised)
      ensures Good() && Grown() && Later(old(Now()), Now()) && failing == before && inSpawn == old(inSpawn) &&
        spawning == old(spawning)
      ensures slot.now.ending != Unasked && (d == 0 ==> Calm(old(Now()), Now()))
      ensures !exhausted && old(RegrowsOver(slot, d)) ==> OwnedTwice(slot) && clashed
      ensures old(StopsAtOnce(slot, exhausted)) ==>
        && slot in old(Now()).state && clock == old(clock) + 1
        && Idle(Stopped(old(Now()), slot).(failing := before, waiting := old(Now()).waiting + [slot]), Now())
    {
      hide AnyUnclear, Sound, Later, Calm, Now, Stopped, Idle, StopsAtOnce, RegrowsOver;
      ghost var a := Now();
      Fields();
      FailSlot(slot, exhausted, d);
      ghost var b := Now();
      Fields();
      Queue(slot, before);
      Fields();
      LaterOn(a, b, Now());
      if d == 0 { CalmOn(a, b, Now()); }
      if old(StopsAtOnce(slot, exhausted)) { BuriedByIdle(a, b, Now(), slot, before); }
    }

    /** The slot is being terminated, and a continuation waits for that. */
    method Queue(slot: Slot, ghost before: set<Slot>)
      requires Good() && slot in all && failing == before + {slot} && slot.now.ending != Unasked
      modifies this`failing, this`waiting
      ensures Good() && Later(old(Now()), Now()) && Calm(old(Now()), Now())
      ensures Now() == old(Now()).(failing := before, waiting := old(Now()).waiting + [slot])
    {
      hide AnyUnclear, Sound, Later, Calm, Now;
      ghost var a := Now();
      Fields();
      LaterSelf(a);
      NoLongerFailing(slot, before);
      ghost var c := Now();
      LaterBesides(a, a, before, a.inSpawn);
      SoundWaiting(workerCount, c, slot);
      Register(slot);
      CalmWaiting(a, c, slot);
      LaterOn(a, c, Now());
    }

    /** From the failing worker on every slot is dead, and the observer of its failure
        lowers the limit below it and raises it again. */
    ghost predicate RegrowsOnFailure(slot: Slot, crash: bool, d: nat)
      reads this, all, slot
    {
      && slot in owned && !slot.now.dead && IsCurrent(slots, slot) && Recoverable(slot, crash)
      && slot.now.ending == Unasked
      && !slot.now.nativeTerminated && d > 0 && slot.index > 0 && limit == slot.index + 1 <= workerCount
      && slot.index !in disabled
      && (forall i | i in slots && i > slot.index :: slots[i] in all && slots[i].index == i && slots[i].now.dead)
      && host(clock).limits == [slot.index, slot.index + 1] && !host(clock).closes && !host(clock).drains
      && PlainFrom(clock + 1, clock + 4) && host(clock + 4).stop == Promised && host(clock + 4).timer
    }

    lemma RegrowsAlive(slot: Slot, crash: bool, d: nat)
      ensures RegrowsOnFailure(slot, crash, d) ==> !slot.now.dead && slot.restarts < MAX_RESTARTS_PER_SLOT
      ensures ExitsPlain(slot, crash) ==>
        !slot.now.dead && slot.restarts < MAX_RESTARTS_PER_SLOT && Recoverable(slot, crash)
    {}

    /** A worker that can be restarted exited by itself, and nobody acts on the report. */
    ghost predicate ExitsPlain(slot: Slot, crash: bool)
      reads this, slot
    {
      && !slot.now.dead && Recoverable(slot, crash) && slot.now.ending == Unasked && slot.now.nativeTerminated
      && host(clock).Passive()
    }

    /** Two owners of one index. */
    ghost predicate OwnedTwice(slot: Slot)
      reads this
    {
      slot in owned && slot.index in slots && slots[slot.index] in owned && slots[slot.index] != slot
    }

    /** `onWorkerFailure`: the worker is terminated first; a restart waits for it. */
    method OnFailure(slot: Slot, crash: bool, d: nat)
      requires Valid() && slot in all
      modifies this, all
      ensures d == 0 ==> raised == old(raised)
      ensures Valid() && Grown() && Later(old(Now()), Now()) && slot.now.dead &&
        (old(slot.now.dead) || slot.now.ending != Unasked)
      ensures d == 0 ==> slots == old(slots)
      ensures d == 0 && !old(slot.now.dead) && !old(Recoverable(slot, crash)) ==>
        slot.index in disabled && !slot.now.restartPlanned
      ensures old(RegrowsOnFailure(slot, crash, d)) ==> OwnedTwice(slot) && clashed
      ensures old(ExitsPlain(slot, crash)) ==>
        slot in old(Now()).state && Idle(Buried(old(Now()), slot), Now()) && clock == old(clock) + 1
    {
      hide AnyUnclear, Sound, Later, Calm, Now, Prompt, OwnedTwice, RegrowsOnFailure, ExitsPlain, Recoverable, Idle,
           Buried;
      ghost var a := Now();
      Fields();
      LaterSelf(a);
      RegrowsAlive(slot, crash, d);
      if slot.now.dead { return; }
      FailLive(slot, crash, d);
      PromptStays(a, Now());
    }

    method FailLive(slot: Slot, crash: bool, d: nat)
      requires Good() && slot in all && !slot.now.dead
      modifies this, all
      ensures d == 0 ==> raised == old(raised)
      ensures Good() && Grown() && Later(old(Now()), Now()) && failing == old(failing) && inSpawn == old(inSpawn) &&
        spawning == old(spawning)
      ensures slot.now.dead && slot.now.ending != Unasked && (d == 0 ==> slots == old(slots))
      ensures d == 0 && !old(Recoverable(slot, crash)) ==> slot.index in disabled && !slot.now.restartPlanned
      ensures old(RegrowsOnFailure(slot, crash, d)) ==> OwnedTwice(slot) && clashed
      ensures old(ExitsPlain(slot, crash)) ==>
        slot in old(Now()).state && Idle(Buried(old(Now()), slot), Now()) && clock == old(clock) + 1
    {
      hide AnyUnclear, Sound, Later, Calm, Now, OwnedTwice, RegrowsOnFailure, RegrowsOver, ExitsPlain, StopsAtOnce,
           Recoverable;
      hide Idle, Buried, WithFailure, Stopped;
      ghost var a := Now();
      Fields();
      RegrowsAlive(slot, crash, d);
      var exhausted := crash && slot.now.ready && slot.restarts >= MAX_RESTARTS_PER_SLOT;
      MarkFailed(slot, crash, d);
      ghost var b := Now();
      Fields();
      Bury(slot, exhausted, a.failing, d);
      Survives(b, slot, d);
      LaterOn(a, b, Now());
      if old(ExitsPlain(slot, crash)) { BuriedInTwo(a, slot); }
    }

    /** What later calls leave of a dead slot. */
    lemma Survives(b: Pool, slot: Slot, d: nat)
      requires Later(b, Now()) && slot in b.state && slot in all && b.state[slot].dead && (d == 0 ==> Calm(b, Now()))
      ensures slot.now.dead && b.disabled <= disabled
      ensures d == 0 ==> slots == b.slots && (slot.now.restartPlanned ==> b.state[slot].restartPlanned)
    {
      hide Later, Calm, Now;
      Fields();
      StateOf(slot);
      AgedSlot(b, Now(), slot);
      DisabledStays(b, Now());
      if d == 0 {
        CalmSlot(b, Now(), slot);
        CalmLimit(b, Now());
      }
    }

    /** A planned restart is taken up. */
    method ClearPlan(slot: Slot)
      requires Good() && slot in all && slot.now.restartPlanned
      modifies slot`now
      ensures Good() && Later(old(Now()), Now()) && Restored(old(Now()), Now()) &&
        slot.now == old(slot.now).(restartPlanned := false)
      ensures slot in old(Now()).state && Now() == Unplanned(old(Now()), slot)
      ensures slot.index < workerCount && (slot.now.ending == Done(true) ==> hazard || Vacant(Now(), slot.index))
    {
      hide AnyUnclear, Sound, Later, Calm, Alone, Now;
      ghost var a := Now();
      Fields();
      StateOf(slot);
      SlotIsOk(workerCount, a, slot);
      Alter(slot, slot.now.(restartPlanned := false));
      StateOf(slot);
    }

    method Dequeue(i: nat)
      requires i < |waiting|
      modifies this`waiting
      ensures Now() == old(Now()).(waiting := waiting) && waiting == old(waiting[..i] + waiting[i + 1..])
    {
      waiting := waiting[..i] + waiting[i + 1..];
    }

    /** Nothing prevents the restart of this slot. */
    ghost predicate Restartable(slot: Slot)
      reads this, slot
    {
      slot.now.ending == Done(true) && !closed && slot.index < limit && slot.index !in disabled
    }

    /** Its starting report will have it planned again. */
    ghost predicate RestartReplans(slot: Slot, d: nat)
      reads this, all, slot
    {
      && slot.index == limit - 1 && IsCurrent(slots, slot) && slot.now.ending == Done(true)
      && ReportReplans(d) && PlainFrom(clock + 1, clock + 3)
    }

    /** The plan is taken up; whatever prevents the restart still does. */
    method TakeUp(slot: Slot, ghost d: nat)
      requires Good() && slot in all && slot.now.restartPlanned
      modifies slot`now
      ensures Good() && Later(old(Now()), Now()) && Restored(old(Now()), Now()) &&
        slot.now == old(slot.now).(restartPlanned := false)
      ensures slot in old(Now()).state && Now() == Unplanned(old(Now()), slot)
      ensures slot.index < workerCount && (slot.now.ending == Done(true) ==> hazard || Vacant(Now(), slot.index))
      ensures old(RestartReplans(slot, d)) ==>
        NestedPlan(slot.index, d) && slots[slot.index] == slot && slot.now.ending == Done(true) && !closed &&
          slot.index < limit
    {
      hide AnyUnclear, Sound, Later, Now, PlainFrom, Vacant, Replannable, Unplanned;
      ghost var a := Now();
      Fields();
      StateOf(slot);
      StillReplannable(workerCount, a, slot, waiting, limit - 1);
      ghost var replans := RestartReplans(slot, d);
      if replans { ReplannableMeans(workerCount, a, limit - 1); }
      ClearPlan(slot);
      Fields();
      StateOf(slot);
    }

    /** The restart that was planned for a slot whose termination has settled. */
    method Restart(slot: Slot, d: nat)
      requires Good() && slot in all && slot.now.restartPlanned && slot.now.ending.Done? && inSpawn == []
      modifies this, all
      ensures d == 0 ==> raised == old(raised)
      ensures Good() && Grown() && Later(old(Now()), Now()) && Restored(old(Now()), Now())
      ensures slots != old(slots) ==> old(slot.now.ending == Done(true) && !closed && slot.index < limit)
      ensures slot in old(Now()).state
      ensures old(Restartable(slot) && PlainFrom(clock, clock + 3)) ==>
        Seats(Unplanned(old(Now()), slot), Now(), slot.index) && limit == old(limit) && clock == old(clock) + 3
      ensures old(RestartReplans(slot, d)) ==> Rearmed(Now(), slot) && clock == old(clock) + 3
    {
      hide AnyUnclear, Sound, Later, Now, Seats, Reseats, Stranded, PlainFrom, Vacant, NestedGrowth, NestedPlan,
           RestartReplans;
      hide Rearmed, Unplanned;
      ghost var a := Now();
      Fields();
      TakeUp(slot, d);
      ghost var b := Now();
      Fields();
      if slot.now.ending.ok && !closed && slot.index < limit {
        var ok := Spawn(slot.index, d);
        LaterOn(a, b, Now());
      }
    }

    /** This continuation restarts its slot undisturbed. */
    ghost predicate ResumesPlain(i: nat)
      reads this, all
    {
      && i < |waiting| && waiting[i] in all && waiting[i].now.restartPlanned && Restartable(waiting[i])
      && PlainFrom(clock, clock + 3)
    }

    /** This continuation restarts its slot, and the starting report has it planned again. */
    ghost predicate ResumeReplans(i: nat, d: nat)
      reads this, all
    {
      i < |waiting| && waiting[i] in all && waiting[i].now.restartPlanned && RestartReplans(waiting[i], d)
    }

    method TakeContinuation(i: nat, ghost d: nat)
      requires Good() && i < |waiting| && waiting[i] in all
      modifies this`waiting
      ensures Good() && waiting == old(waiting[..i] + waiting[i + 1..])
      ensures Now() == old(Now()).(waiting := old(Now().waiting[..i] + Now().waiting[i + 1..]))
      ensures old(RestartReplans(waiting[i], d)) ==> RestartReplans(old(waiting[i]), d)
    {
      hide AnyUnclear, Sound, Now, Replannable, PlainFrom;
      ghost var a := Now();
      Fields();
      StateOf(waiting[i]);
      SoundDequeued(workerCount, a, i);
      StillReplannable(workerCount, a, waiting[i], waiting[..i] + waiting[i + 1..], limit - 1);
      Dequeue(i);
      Fields();
    }

    /** A continuation of a settled termination: the restart happens at most once,
        and only after a confirmed exit. */
    method Resume(i: nat, d: nat)
      requires Valid() && i < |waiting| && waiting[i] in all && waiting[i].now.ending.Done?
      modifies this, all
      ensures d == 0 ==> raised == old(raised)
      ensures Valid() && Grown() && Orderly(old(Now()), Now())
      ensures slots != old(slots) ==>
        old(waiting[i].now.restartPlanned && waiting[i].now.ending == Done(true) && !closed && waiting[i].index < limit)
      ensures old(i < |Now().waiting| && Now().waiting[i] in Now().state)
      ensures old(ResumesPlain(i)) ==>
        Seats(old(Continued(Now(), i)), Now(), old(waiting[i].index)) && limit == old(limit) && clock == old(clock) + 3
      ensures old(ResumeReplans(i, d)) ==> Rearmed(Now(), old(waiting[i])) && clock == old(clock) + 3
    {
      hide AnyUnclear, Sound, Later, Now, Prompt, Orderly, Seats, Reseats, Rearmed, PlainFrom, RestartReplans,
           Unplanned, Continued;
      ghost var a := Now();
      Fields();
      var slot := waiting[i];
      StateOf(slot);
      ContinuedInTwo(a, i);
      TakeContinuation(i, d);
      ghost var b := Now();
      Fields();
      PromptDequeued(a, b.waiting);
      if slot.now.restartPlanned {
        Restart(slot, d);
        OrderlyDequeued(a, b.waiting, Now());
        PromptStays(b, Now());
        Fields();
      }
    }

    // ------------------------------------------------------------------------ events

    /** `ready`, or a failure to initialise SIMD. */
    method OnReady(slot: Slot, simd: bool, d: nat)
      requires Valid() && slot in all
      modifies this, all
      ensures d == 0 ==> raised == old(raised)
      ensures Valid() && Grown() && Later(old(Now()), Now())
      ensures old(!slot.now.dead && !closed) && simd && host(old(clock)).Passive() ==>
        Idle(WithState(old(Now()), slot, old(slot.now).(ready := true)), Now()) && clock == old(clock) + 1
    {
      hide AnyUnclear, Sound, Later, Calm, Alone, Now, Seats, Reseats, Regrowable, PlainFrom, Prompt, Idle, OwnedTwice;
      ghost var a := Now();
      LaterSelf(a);
      Fields();
      if slot.now.dead || closed { return; }
      if !simd {
        OnFailure(slot, false, d);
        return;
      }
      StateOf(slot);
      SlotIsOk(workerCount, a, slot);
      Alter(slot, slot.now.(ready := true));
      ghost var b := Now();
      Report(d);
      LaterOn(a, b, Now());
      PromptStays(a, Now());
      Fields();
    }

    /** A reply to a job: invalid ones fail the worker, and a worker above the limit
        retires after its last job. */
    method OnReply(slot: Slot, valid: bool, d: nat)
      requires Valid() && slot in all
      modifies this, all
      ensures d == 0 ==> raised == old(raised)
      ensures Valid() && Grown() && Later(old(Now()), Now())
    {
      hide AnyUnclear, Sound, Later, Calm, Alone, Now, Regrowable, PlainFrom, Prompt, OwnedTwice;
      ghost var a := Now();
      LaterSelf(a);
      Fields();
      if slot.now.dead || closed { return; }
      if !slot.now.busy || !valid {
        OnFailure(slot, false, d);
        return;
      }
      StateOf(slot);
      SlotIsOk(workerCount, a, slot);
      Alter(slot, slot.now.(busy := false));
      ghost var b := Now();
      LaterSelf(b);
      if slot.now.retiring || slot.index >= limit { Kill(slot, d); }
      LaterOn(a, b, Now());
      PromptStays(a, Now());
      Fields();
    }

    /** A job is posted to an idle worker; a failed post fails the worker. */
    method Assign(slot: Slot, posted: bool, d: nat)
      requires Valid() && slot in all
      modifies this, all
      ensures d == 0 ==> raised == old(raised)
      ensures Valid() && Grown() && Later(old(Now()), Now())
    {
      hide AnyUnclear, Sound, Later, Calm, Alone, Now, Regrowable, PlainFrom, Prompt, OwnedTwice;
      ghost var a := Now();
      LaterSelf(a);
      Fields();
      if closed || slot.index >= limit || slot.now.dead || slot.now.retiring || !slot.now.ready || slot.now.busy {
        return;
      }
      StateOf(slot);
      SlotIsOk(workerCount, a, slot);
      Alter(slot, slot.now.(busy := true));
      ghost var b := Now();
      LaterSelf(b);
      PromptStays(a, b);
      Fields();
      if !posted { OnFailure(slot, true, d); }
      LaterOn(a, b, Now());
    }

    /** A worker in service exits by itself, can be restarted, and nobody acts on the report. */
    ghost predicate ExitsItself(slot: Slot)
      reads this, slot
    {
      !slot.now.dead && Recoverable(slot, true) && slot.now.ending == Unasked && host(clock).Passive()
    }

    /** The `exit` event: authoritative, however late. */
    method OnExit(slot: Slot, d: nat)
      requires Valid() && slot in all
      modifies this, all
      ensures d == 0 ==> raised == old(raised)
      ensures Valid() && Grown() && Orderly(old(Now()), Now()) && slot.now.nativeTerminated && slot.now.dead &&
        slot !in owned
      ensures old(ExitsItself(slot)) ==>
        slot in old(Now()).state && Idle(Buried(Gone(old(Now()), slot), slot), Now()) && clock == old(clock) + 1
    {
      hide AnyUnclear, Sound, Later, Calm, Now, Regrowable, PlainFrom, Prompt, OwnedTwice, DrainedIfReady, Gone, Idle,
           Buried;
      hide RegrowsOnFailure;
      ghost var a := Now();
      Fields();
      StateOf(slot);
      Confirm(slot);
      ghost var b := Now();
      LaterSelf(b);
      GoneMeans(a, slot);
      StateOf(slot);
      Fields();
      if !slot.now.dead { OnFailure(slot, true, d); }
      OrderlyGone(a, slot, Now());
      AgedSlot(b, Now(), slot);
      StateOf(slot);
      SlotIsOk(workerCount, Now(), slot);
      Fields();
    }

    /** The promise of `worker.terminate()` fulfilled, possibly after a timeout. */
    method OnTerminated(slot: Slot)
      requires Valid() && slot in all && slot.now.promised
      modifies this, all
      ensures raised == old(raised)
      ensures Valid() && Grown() && Orderly(old(Now()), Now()) && slot.now.nativeTerminated && slot !in owned
    {
      hide AnyUnclear, Sound, Later, Calm, Now, Prompt, DrainedIfReady, Gone;
      ghost var a := Now();
      Fields();
      StateOf(slot);
      Confirm(slot);
      GoneMeans(a, slot);
      StateOf(slot);
      Fields();
      LaterSelf(Now());
      OrderlyGone(a, slot, Now());
      SlotIsOk(workerCount, Now(), slot);
    }

    /** Its rejection or the bounded wait's end: no proof of an exit. */
    method OnNotTerminated(slot: Slot, d: nat)
      requires Valid() && slot in all
      modifies this, all
      ensures d == 0 ==> raised == old(raised)
      ensures Valid() && Grown() && Later(old(Now()), Now())
      ensures old(slot.now.ending) == Pending ==>
        slot.now.ending == Done(false) && slot.index in disabled && (slot in owned <==> slot in old(owned))
    {
      hide AnyUnclear, Sound, Later, Calm, Alone, Now, Prompt;
      ghost var a := Now();
      LaterSelf(a);
      StateOf(slot);
      SlotIsOk(workerCount, a, slot);
      Fields();
      if slot.now.ending == Pending { FailEnding(slot, d); }
      AgedSlot(a, Now(), slot);
      StateOf(slot);
      SlotIsOk(workerCount, Now(), slot);
      PromptStays(a, Now());
      Fields();
    }

    /** A failed construction closes and drains what was started. */
    method Abandon()
      requires Good() && failing == {} && inSpawn == [] && spawning == 0
      modifies this, all
      ensures raised == old(raised)
      ensures Good() && Grown() && Later(old(Now()), Now()) && Restored(old(Now()), Now()) && closed && drainRequested
    {
      hide AnyUnclear, Sound, Later, Calm, Now, Spares, Idle, AllDead;
      ghost var a := Now();
      Close(0);
      ghost var b := Now();
      CloseAndDrain(0);
      LaterOn(a, b, Now());
    }

    /** One worker of a new pool; a failure closes and drains what was started. */
    method StartOne(index: nat) returns (ok: bool)
      requires Good() && index < workerCount && failing == {} && inSpawn == [] && spawning == 0 &&
        forall i | i in slots :: i < index
      modifies this, all
      ensures raised == old(raised)
      ensures Good() && Grown() && Later(old(Now()), Now()) && Restored(old(Now()), Now())
      ensures if ok then limit == old(limit) && (forall i | i in slots :: i <= index) else closed && drainRequested
      ensures old(!closed && index !in disabled && PlainFrom(clock, clock + 3)) ==>
        ok && Seats(old(Now()), Now(), index) && clock == old(clock) + 3
    {
      hide AnyUnclear, Sound, Later, Now, Seats, Reseats, Stranded, Spawnable, Regrowable, PlainFrom, NestedGrowth;
      ghost var a := Now();
      Fields();
      Unseated(a, index);
      ok := Spawn(index, 0);
      if !ok {
        ghost var b := Now();
        Fields();
        Abandon();
        LaterOn(a, b, Now());
      }
    }

    method StartNext(ghost a: Pool, index: nat) returns (ok: bool)
      requires Good() && Later(a, Now()) && index < workerCount && (forall i | i in slots :: i < index)
      requires failing == {} && inSpawn == [] && spawning == 0
      modifies this, all
      ensures raised == old(raised)
      ensures Good() && Grown() && Later(a, Now()) && Restored(old(Now()), Now())
      ensures if ok then limit == old(limit) && (forall i | i in slots :: i <= index) else closed && drainRequested
      ensures old(!closed && index !in disabled && PlainFrom(clock, clock + 3)) ==>
        ok && Seats(old(Now()), Now(), index) && clock == old(clock) + 3
    {
      hide AnyUnclear, Sound, Later, Now, Seats, Reseats, PlainFrom;
      ghost var b := Now();
      ok := StartOne(index);
      LaterOn(a, b, Now());
    }

    /** The constructor's spawn loop, before anyone else holds the pool. */
    method Start() returns (ok: bool)
      requires Valid() && slots == map[] && limit <= workerCount
      modifies this, all
      ensures raised == old(raised)
      ensures Valid() && Grown() && Later(old(Now()), Now()) && (!ok ==> closed && drainRequested)
      ensures old(limit == 1 && !closed && 0 !in disabled && PlainFrom(clock, clock + 3)) ==>
        ok && Seats(old(Now()), Now(), 0) && limit == 1 && clock == old(clock) + 3
    {
      hide AnyUnclear, Sound, Later, Now, Seats, Reseats, Prompt, PlainFrom;
      ghost var a := Now();
      Fields();
      LaterSelf(a);
      ok := true;
      ghost var plain := limit == 1 && !closed && 0 !in disabled && PlainFrom(clock, clock + 3);
      for index := 0 to limit
        invariant raised == old(raised)
        invariant Good() && Grown() && Later(a, Now()) && Restored(a, Now()) && limit == old(limit) && ok &&
          forall i | i in slots :: i < index
        invariant index == 0 ==> Now() == a && clock == old(clock) && disabled == old(disabled) && closed == old(closed)
        invariant index == 1 && plain ==> Seats(a, Now(), 0) && clock == old(clock) + 3
      {
        Fields();
        ok := StartNext(a, index);
        if !ok { break; }
      }
      PromptStays(a, Now());
      Fields();
    }

    /** An event of a worker or of its termination. */
    method Deliver(e: Event, d: nat)
      requires Valid()
      modifies this, all
      ensures Valid() && Grown() && Orderly(old(Now()), Now()) && (d == 0 ==> raised == old(raised))
      ensures e.Ready? && e.slot < |old(made)| && old(made)[e.slot] in old(all) &&
              old(!made[e.slot].now.dead && !closed) && e.simd && host(old(clock)).Passive() ==>
        Idle(WithState(old(Now()), old(made)[e.slot], old(made[e.slot].now).(ready := true)), Now()) &&
          clock == old(clock) + 1
      ensures e.Failed? && e.slot < |old(made)| && old(made)[e.slot] in old(all) &&
              old(RegrowsOnFailure(made[e.slot], e.crash, d)) ==>
        OwnedTwice(old(made)[e.slot]) && clashed
      ensures e.Resumed? && e.continuation < |old(waiting)| && old(waiting)[e.continuation] in old(all) ==>
        old(e.continuation < |Now().waiting| && Now().waiting[e.continuation] in Now().state)
      ensures e.Resumed? && old(ResumesPlain(e.continuation)) ==>
        Seats(old(Continued(Now(), e.continuation)), Now(), old(waiting[e.continuation].index)) &&
          limit == old(limit) && clock == old(clock) + 3
      ensures e.Resumed? && old(ResumeReplans(e.continuation, d)) ==>
        Rearmed(Now(), old(waiting[e.continuation])) && clock == old(clock) + 3
      ensures e.Exited? && e.slot < |old(made)| && old(made)[e.slot] in old(all) && old(ExitsItself(made[e.slot])) ==>
        && old(made)[e.slot] in old(Now()).state && clock == old(clock) + 1
        && Idle(Buried(Gone(old(Now()), old(made)[e.slot]), old(made)[e.slot]), Now())
    {
      hide AnyUnclear, Sound, Later, Now, Prompt, Idle, Orderly, OwnedTwice, RegrowsOnFailure, Seats, Reseats, Rearmed,
           Continued, ReportReplans, PlainFrom, ExitsItself, Buried, Gone;
      ghost var a := Now();
      Fields();
      LaterSelf(a);
      LaterIsOrderly(a, a);
      MadeIsKnown(workerCount, a);
      match e {
        case Resumed(i) =>
          if i < |waiting| && waiting[i].now.ending.Done? { Resume(i, d); }
          return;
        case Ready(i, simd) => if i < |made| { OnReady(made[i], simd, d); }
        case Replied(i, valid) => if i < |made| { OnReply(made[i], valid, d); }
        case Assigned(i, posted) => if i < |made| { Assign(made[i], posted, d); }
        case Failed(i, crash) => if i < |made| { OnFailure(made[i], crash, d); }
        case Exited(i) =>
          if i < |made| { OnExit(made[i], d); }
          return;
        case Terminated(i) =>
          if i < |made| && made[i].now.promised { OnTerminated(made[i]); }
          return;
        case NotTerminated(i) => if i < |made| { OnNotTerminated(made[i], d); }
        case _ => return;
      }
      LaterIsOrderly(a, Now());
      PromptStays(a, Now());
      Fields();
    }

    /** One event of the environment; events name slots by their age. */
    method Step(e: Event, d: nat)
      requires Valid()
      modifies this, all
      ensures Valid() && Grown() && Orderly(old(Now()), Now())
      ensures e.LimitSet? && e.limit == old(limit) + 1 &&
              old(Spawnable(workerCount, Now(), limit) && PlainFrom(clock, clock + 3)) ==>
        Seats(old(Now()), Now(), old(limit)) && limit == e.limit && clock == old(clock) + 3
      ensures e.LimitSet? && e.limit == old(limit) + 1 && old(NestedGrowth(limit, d)) ==>
        Stranded(Now(), old(limit)) && clashed
      ensures e.Ready? && e.slot < |old(made)| && old(made)[e.slot] in old(all) &&
              old(!made[e.slot].now.dead && !closed) && e.simd && host(old(clock)).Passive() ==>
        Idle(WithState(old(Now()), old(made)[e.slot], old(made[e.slot].now).(ready := true)), Now()) &&
          clock == old(clock) + 1
      ensures e.Failed? && e.slot < |old(made)| && old(made)[e.slot] in old(all) &&
              old(RegrowsOnFailure(made[e.slot], e.crash, d)) ==>
        OwnedTwice(old(made)[e.slot]) && clashed
      ensures e.Resumed? && e.continuation < |old(waiting)| && old(waiting)[e.continuation] in old(all) ==>
        old(e.continuation < |Now().waiting| && Now().waiting[e.continuation] in Now().state)
      ensures e.Resumed? && old(ResumesPlain(e.continuation)) ==>
        Seats(old(Continued(Now(), e.continuation)), Now(), old(waiting[e.continuation].index)) &&
          limit == old(limit) && clock == old(clock) + 3
      ensures e.Resumed? && old(ResumeReplans(e.continuation, d)) ==>
        Rearmed(Now(), old(waiting[e.continuation])) && clock == old(clock) + 3
      ensures e.Exited? && e.slot < |old(made)| && old(made)[e.slot] in old(all) && old(ExitsItself(made[e.slot])) ==>
        && old(made)[e.slot] in old(Now()).state && clock == old(clock) + 1
        && Idle(Buried(Gone(old(Now()), old(made)[e.slot]), old(made)[e.slot]), Now())
      ensures e.DrainAsked? ==> closed && drainRequested && Spares(old(Now()), Now())
      ensures d == 0 ==> hazard == old(hazard)
    {
      hide AnyUnclear, Sound, Later, Now, Seats, Reseats, Stranded, Spawnable, Prompt, Spares, Idle, Orderly,
           PlainFrom, OwnedTwice;
      hide NestedGrowth, RegrowsOnFailure, ResumesPlain, ResumeReplans, Rearmed, Continued, ExitsItself, Buried, Gone;
      if e.LimitSet? || e.Closed? || e.DrainAsked? {
        Command(e, d);
      } else {
        Deliver(e, d);
      }
    }

    /** A call of the pool's owner. */
    method Command(e: Event, d: nat)
      requires Valid() && (e.LimitSet? || e.Closed? || e.DrainAsked?)
      modifies this, all
      ensures Valid() && Grown() && Orderly(old(Now()), Now())
      ensures e.LimitSet? && e.limit == old(limit) + 1 &&
              old(Spawnable(workerCount, Now(), limit) && PlainFrom(clock, clock + 3)) ==>
        Seats(old(Now()), Now(), old(limit)) && limit == e.limit && clock == old(clock) + 3
      ensures e.LimitSet? && e.limit == old(limit) + 1 && old(NestedGrowth(limit, d)) ==>
        Stranded(Now(), old(limit)) && clashed
      ensures e.DrainAsked? ==> closed && drainRequested && Spares(old(Now()), Now())
      ensures d == 0 ==> hazard == old(hazard)
    {
      hide AnyUnclear, Sound, Later, Calm, Now, Seats, Reseats, Stranded, Spawnable, Prompt, Spares, Idle, AllDead,
           Orderly, PlainFrom;
      hide NestedGrowth, Plannable, Plans, Shrunk, Shrinkable;
      ghost var a := Now();
      Fields();
      match e {
        case LimitSet(n) =>
          ClearBetween(a, raised, n);
          var ok := SetLimit(n, d);
        case Closed => Close(d);
        case DrainAsked => CloseAndDrain(d);
      }
      LaterIsOrderly(a, Now());
      PromptStays(a, Now());
      Fields();
    }

    /** Every run: whatever the environment does, and to whatever depth foreign code
        calls back, every index has at most one owner, and so at most `workerCount`
        workers are owned, unless a limit was raised over an index that was not clear,
        which takes foreign code that raises it while it is called by the pool;
        a worker is replaced only after its exit was confirmed, unless the pool has
        clashed; and a resolved drain means that no worker is left, for good. */
    method Run(events: seq<Event>, d: nat)
      requires Valid()
      modifies this, all
      ensures Valid() && Grown() && Orderly(old(Now()), Now()) && (clashed ==> hazard)
      ensures !clashed ==>
        |owned| <= workerCount && forall s, t | s in owned && t in owned && s.index == t.index :: s == t
      ensures (hazard <==> AnyUnclear(raised)) && (d == 0 ==> hazard == old(hazard))
      ensures drained <==> drainRequested && closed && owned == {} && spawning == 0
    {
      hide AnyUnclear, Sound, Now, Seats, Reseats, Stranded, Spawnable, Regrowable, Prompt, Spares, Idle, Orderly,
           PlainFrom, OwnedTwice, NestedGrowth;
      hide RegrowsOnFailure, Later;
      ghost var a := Now();
      LaterSelf(a);
      LaterIsOrderly(a, a);
      for n := 0 to |events|
        invariant Valid() && Grown() && Orderly(a, Now()) && (d == 0 ==> hazard == old(hazard))
      {
        ghost var b := Now();
        Step(events[n], d);
        OrderlyOn(a, b, Now());
      }
      OwnersAreFew(workerCount, Now());
      Fields();
    }

    /** The third way to two owners: the starting report of a restart lowers the limit and
        raises it again. That plans a second restart of the slot being replaced, whose
        continuation later seats a worker over the one that replaced it. */
    method RestartTwice(i: nat, d: nat) returns (ghost first: Slot)
      requires Valid() && ResumeReplans(i, d) && PlainFrom(clock + 3, clock + 6)
      modifies this, all
      ensures Valid() && Grown() && clashed && first.index == old(waiting[i].index) && OwnedTwice(first)
    {
      hide AnyUnclear, Sound, Later, Now, Seats, Reseats, Prompt, Idle, Orderly, Replannable, Rearmed, Continued,
           ReportReplans;
      Fields();
      var slot := waiting[i];
      Step(Resumed(i), d);
      ghost var b := Now();
      Fields();
      StateOf(slot);
      RearmedMeans(b, slot);
      CurrentIsKnown(workerCount, b);
      first := slots[slot.index];
      assert ResumesPlain(|waiting| - 1);
      Step(Resumed(|waiting| - 1), d);
      Fields();
      RearmedClashes(b, Now(), slot);
    }
  }

  lemma RearmedMeans(p: Pool, s: Slot)
    requires Rearmed(p, s)
    ensures s in p.state && p.state[s].restartPlanned && p.state[s].ending == Done(true) && !p.closed &&
      s.index < p.limit
    ensures s.index !in p.disabled && s.index in p.slots && p.slots[s.index] in p.owned
    ensures p.waiting != [] && p.waiting[|p.waiting| - 1] == s
  {
  }

  /** After the continuation of a rearmed slot ran undisturbed its index has two owners. */
  lemma RearmedClashes(a: Pool, b: Pool, s: Slot)
    requires Rearmed(a, s) && a.slots[s.index] in a.state && Seats(Continued(a, |a.waiting| - 1), b, s.index)
    ensures var w := a.slots[s.index];
      b.clashed && w in b.owned && s.index in b.slots && b.slots[s.index] in b.owned && b.slots[s.index] != w
  {
    assert a.slots[s.index] in Continued(a, |a.waiting| - 1).owned;
  }

  datatype Event =
    | LimitSet(limit: int)
    | Closed
    | DrainAsked
    | Resumed(continuation: nat)
    | Ready(slot: nat, simd: bool)
    | Replied(slot: nat, valid: bool)
    | Assigned(slot: nat, posted: bool)
    | Failed(slot: nat, crash: bool)
    | Exited(slot: nat)
    | Terminated(slot: nat)
    | NotTerminated(slot: nat)

  /** What every event keeps: replacement follows confirmed exit unless the pool has
      clashed, and exits, a resolved drain and the alarm stay. */
  ghost predicate Orderly(a: Pool, b: Pool) {
    && a.state.Keys <= b.state.Keys && Replaced(a, b)
    && (forall s | s in a.state :: a.state[s].nativeTerminated ==> b.state[s].nativeTerminated)
    && (a.drained ==> b.drained) && (a.hazard ==> b.hazard) && (a.clashed ==> b.clashed)
  }

  lemma LaterIsOrderly(a: Pool, b: Pool)
    requires Later(a, b)
    ensures Orderly(a, b)
  {
  }

  lemma OrderlyOn(a: Pool, b: Pool, c: Pool)
    requires Orderly(a, b) && Orderly(b, c)
    ensures Orderly(a, c)
  {
    forall i | i in a.slots
      ensures i in c.slots &&
        (c.slots[i] == a.slots[i] || c.clashed || (a.slots[i] in c.state && c.state[a.slots[i]].nativeTerminated))
    {
      assert i in b.slots;
    }
  }

  lemma GoneMeans(p: Pool, s: Slot)
    requires s in p.state
    ensures var q := DrainedIfReady(Gone(p, s));
      && s in q.state && q.state[s].nativeTerminated && q.state[s].dead == p.state[s].dead
      && q.failing == p.failing && q.inSpawn == p.inSpawn && q.spawning == p.spawning
      && q.closed == p.closed && q.limit == p.limit && q.state[s].ready == p.state[s].ready
      && q.state[s].retiring == p.state[s].retiring
      && (p.state[s].ending == Unasked ==> q.state[s].ending == Unasked) && (!p.closed ==> q == Gone(p, s))
  {
  }

  lemma OrderlyGone(a: Pool, s: Slot, c: Pool)
    requires s in a.state && Later(DrainedIfReady(Gone(a, s)), c)
    ensures Orderly(a, c)
  {
    var b := DrainedIfReady(Gone(a, s));
    assert Orderly(a, b);
    LaterIsOrderly(b, c);
    OrderlyOn(a, b, c);
  }

  lemma SoundDequeued(n: nat, p: Pool, i: nat)
    requires Sound(n, p) && i < |p.waiting|
    ensures Sound(n, p.(waiting := p.waiting[..i] + p.waiting[i + 1..]))
  {
    hide SlotOk, OnePerIndex, Distinct;
    var q := p.(waiting := p.waiting[..i] + p.waiting[i + 1..]);
    assert forall t :: StandingOf(q, t) == StandingOf(p, t);
  }

  lemma PromptDequeued(p: Pool, waiting: seq<Slot>)
    ensures Prompt(p.(waiting := waiting)) == Prompt(p) && Orderly(p, p.(waiting := waiting))
  {
  }

  lemma OrderlyDequeued(a: Pool, waiting: seq<Slot>, c: Pool)
    requires Later(a.(waiting := waiting), c)
    ensures Orderly(a, c)
  {
  }

  lemma Unseated(p: Pool, index: nat)
    requires forall i | i in p.slots :: i < index
    ensures Vacant(p, index)
  {
  }

  lemma MadeIsKnown(n: nat, p: Pool)
    requires Sound(n, p)
    ensures (forall i | 0 <= i < |p.made| :: p.made[i] in p.state) &&
      (forall i | 0 <= i < |p.waiting| :: p.waiting[i] in p.state)
  {
  }

  lemma OwnersAreFew(n: nat, p: Pool)
    requires Sound(n, p) && Prompt(p)
    ensures !p.clashed ==> |p.owned| <= n && forall s, t | s in p.owned && t in p.owned && s.index == t.index :: s == t
    ensures p.clashed ==> p.hazard
    ensures p.drained <==> p.drainRequested && p.closed && p.owned == {} && p.spawning == 0
  {
    hide AllOk;
    if !p.clashed { FewIndices(p.owned, n); }
  }

  /** A worker that failed, with or without a restart planned. */
  function WithFailure(p: Pool, s: Slot, retrying: bool): Pool
    requires s in p.state
  {
    WithState(p, s, p.state[s].(dead := true, ready := false, busy := false, restartPlanned := retrying)).(
      failing := p.failing + {s}, restarts := if retrying then p.restarts[s.index := s.restarts + 1] else p.restarts,
      disabled := if retrying then p.disabled else p.disabled + {s.index})
  }

  lemma SoundFailed(n: nat, p: Pool, s: Slot, retrying: bool)
    requires Sound(n, p) && s in p.state && !p.state[s].dead && (retrying ==> s.restarts < MAX_RESTARTS_PER_SLOT)
    ensures Sound(n, WithFailure(p, s, retrying)) && Later(p, WithFailure(p, s, retrying))
  {
    hide Sound, Later, SlotOk, StandingOf;
    var x := p.state[s].(dead := true, ready := false, busy := false, restartPlanned := retrying);
    SlotIsOk(n, p, s);
    FailedIsOk(n, StandingOf(p, s), !p.hazard, p.state[s], retrying);
    SoundFailing(n, p, s, x);
    LaterState(p, s, x);
    var m := WithState(p, s, x).(failing := p.failing + {s});
    LaterBesides(p, WithState(p, s, x), m.failing, p.inSpawn);
    SoundNoted(n, m, s, retrying);
    LaterOn(p, m, WithFailure(p, s, retrying));
  }

  lemma CalmWaiting(a: Pool, b: Pool, s: Slot)
    requires Calm(a, b)
    ensures Calm(a, b.(waiting := b.waiting + [s]))
  {
  }

  lemma FailedIsOk(n: nat, p: Standing, safe: bool, x: SlotState, retrying: bool)
    requires SlotOk(n, p, safe, x) && !x.dead
    ensures SlotOk(n, p.(failing := true), safe,
      x.(dead := true, ready := false, busy := false, restartPlanned := retrying))
  {
  }

  lemma SoundNoted(n: nat, p: Pool, s: Slot, retrying: bool)
    requires Sound(n, p) && (retrying ==> s.restarts < MAX_RESTARTS_PER_SLOT)
    ensures var q := p.(restarts := if retrying then p.restarts[s.index := s.restarts + 1] else p.restarts,
                        disabled := if retrying then p.disabled else p.disabled + {s.index});
            Sound(n, q) && Later(p, q)
  {
    hide SlotOk, OnePerIndex, Distinct;
    var q := p.(restarts := if retrying then p.restarts[s.index := s.restarts + 1] else p.restarts,
                disabled := if retrying then p.disabled else p.disabled + {s.index});
    assert forall t :: StandingOf(q, t) == StandingOf(p, t);
  }

  lemma FailedMeans(p: Pool, s: Slot, retrying: bool)
    requires s in p.state
    ensures var q := WithFailure(p, s, retrying);
      && q.state[s].dead && q.state[s].restartPlanned == retrying && q.state[s].ending == p.state[s].ending
      && q.state[s].nativeTerminated == p.state[s].nativeTerminated && q.failing == p.failing + {s}
      && q.inSpawn == p.inSpawn
      && q.spawning == p.spawning && q.slots == p.slots && q.limit == p.limit && q.owned == p.owned
      && (!retrying ==> s.index in q.disabled)
  {
  }

  lemma FailedIsRegrowable(n: nat, p: Pool, s: Slot)
    requires s in p.state && IsCurrent(p.slots, s) && !p.closed && s.index > 0 && p.limit == s.index + 1 <= n &&
      s.index !in p.disabled
    requires p.state[s].ending == Unasked
    requires forall i | i in p.slots && i > s.index ::
      p.slots[i] in p.state && p.slots[i].index == i && p.state[p.slots[i]].dead
    ensures Regrowable(n, WithFailure(p, s, true), s.index)
  {
  }

  lemma KeptSlot(a: Pool, b: Pool, s: Slot, index: nat)
    requires Reseats(a, b, index) && s in a.state
    ensures s in b.state && Kept(a.state[s], b.state[s])
  {
  }

  lemma SeatedOver(a: Pool, b: Pool, c: Pool, s: Slot)
    requires s in a.state && s in a.owned && IsCurrent(a.slots, s) && Reseats(a, b, s.index) && Alone(b, c, s)
    requires c.owned == b.owned && c.clashed == b.clashed
    ensures s in c.owned && s.index in c.slots && c.slots[s.index] in c.owned && c.slots[s.index] != s && c.clashed
  {
  }

  lemma PromptStays(a: Pool, b: Pool)
    requires Later(a, b) && Prompt(a)
    ensures Prompt(b)
  {
  }

  ghost predicate AllDead(p: Pool) {
    forall i | i in p.slots ::
      p.slots[i] in p.state && var x := p.state[p.slots[i]]; x.dead && !x.restartPlanned && x.ending != Unasked
  }

  // -------------------------------------------------------------- three bad runs

  /** From a starting report: with limit 1, an observer of the report that worker 1 is
      starting sets the limit to 2 itself. The nested call seats one worker and the
      outer call another over it. The first is owned, no slot of the pool and never
      asked to stop, so the drain that is then requested does not resolve. */
  method NestedGrowthStrandsAWorker() returns (pool: DesktopHashWorkerPool, ghost lost: Slot)
    ensures fresh(pool) && pool.Valid() && pool.clashed && pool.hazard
    ensures pool.closed && pool.drainRequested && !pool.drained && lost.index == 1 && Abandoned(pool.Now(), lost)
  {
    hide Sound, Prompt, Spares, Orderly, Regrowable, Idle;
    pool := new DesktopHashWorkerPool(2, n => if n == 3 then PLAIN.(limits := [2]) else PLAIN, 1);
    ghost var a := pool.Now();
    var ok := pool.Start();
    pool.Fields();
    assert pool.NestedGrowth(1, 1);
    pool.Step(LimitSet(2), 1);
    ghost var b := pool.Now();
    pool.Fields();
    lost :| lost in b.owned && lost.index == 1 && Abandoned(b, lost);
    pool.Step(DrainAsked, 1);
    pool.Fields();
    SparedIsAbandoned(b, pool.Now(), lost);
    ClashStays(b, pool.Now());
    OwnersAreFew(2, pool.Now());
  }

  lemma ClashStays(a: Pool, b: Pool)
    requires Orderly(a, b) && a.clashed
    ensures b.clashed
  {
  }

  /** A new pool of two workers, started one after the other. */
  method TwoWorkers(host: nat -> Choice) returns (pool: DesktopHashWorkerPool)
    requires forall n: nat | n < 6 :: host(n).Plain()
    ensures fresh(pool) && fresh(pool.all) && pool.Valid() && pool.host == host &&
      pool.workerCount == pool.limit == 2 && pool.clock == 6
    ensures !pool.closed && pool.disabled == {} && |pool.made| == 2 && pool.slots.Keys == {0, 1} &&
      pool.slots[1] == pool.made[1]
    ensures pool.made[1] in pool.all && pool.made[1] in pool.owned && pool.made[1].index == 1 &&
      pool.made[1].restarts == 0
    ensures pool.made[1].now == NEW_SLOT && pool.waiting == []
  {
    hide Sound, Prompt, Spares, Orderly, Stranded, Regrowable, Idle;
    pool := new DesktopHashWorkerPool(2, host, 1);
    var ok := pool.Start();
    pool.Fields();
    pool.Step(LimitSet(2), 0);
    pool.Fields();
    pool.StateOf(pool.made[1]);
  }

  /** The same with the second one ready. */
  method SecondReady(host: nat -> Choice) returns (pool: DesktopHashWorkerPool)
    requires forall n: nat | n < 7 :: host(n).Plain()
    ensures fresh(pool) && fresh(pool.all) && pool.Valid() && pool.host == host &&
      pool.workerCount == pool.limit == 2 && pool.clock == 7
    ensures !pool.closed && pool.disabled == {} && |pool.made| == 2 && pool.slots.Keys == {0, 1} &&
      pool.slots[1] == pool.made[1]
    ensures pool.made[1] in pool.all && pool.made[1] in pool.owned && pool.made[1].index == 1 &&
      pool.made[1].restarts == 0
    ensures pool.made[1].now == NEW_SLOT.(ready := true) && pool.waiting == []
  {
    hide Sound, Prompt, Spares, Orderly, Stranded, Seats, Reseats, Spawnable, Regrowable, Rearmed, Continued, Buried,
         Gone;
    pool := TwoWorkers(host);
    var slot := pool.made[1];
    pool.Fields();
    pool.StateOf(slot);
    pool.Step(Ready(1, true), 0);
    pool.Fields();
    pool.StateOf(slot);
  }

  /** From a failure report: worker 1 of two crashes, and the observer of its failure
      lowers the limit to 1 and raises it again. The crashed worker, still owned and not
      yet asked to stop, gets a second owner beside it. */
  method RegrowthDuringFailureOwnsTwice() returns (pool: DesktopHashWorkerPool, ghost failed: Slot)
    ensures fresh(pool) && pool.Valid() && pool.clashed && pool.hazard && failed.index == 1 && pool.OwnedTwice(failed)
  {
    hide Sound, Prompt, Spares, Orderly, Stranded, Seats, Reseats, Spawnable, Regrowable;
    pool := SecondReady(n => if n == 7 then PLAIN.(limits := [1, 2]) else PLAIN);
    var slot := pool.made[1];
    failed := slot;
    assert pool.RegrowsOnFailure(slot, true, 1);
    pool.Step(Failed(1, true), 1);
    pool.Fields();
    OwnersAreFew(2, pool.Now());
  }

  /** From a starting report: worker 1 of two exits, and the observer of its restart
      lowers the limit to 1 and raises it again. It is replaced twice. */
  method ReplannedRestartOwnsTwice() returns (pool: DesktopHashWorkerPool, ghost first: Slot)
    ensures fresh(pool) && pool.Valid() && pool.clashed && pool.hazard && first.index == 1 && pool.OwnedTwice(first)
  {
    hide Sound, Prompt, Spares, Orderly, Stranded, Seats, Reseats, Spawnable, Regrowable, Replannable, Buried, Gone,
         Rearmed, Continued;
    pool := SecondReady(n => if n == 8 then PLAIN.(limits := [1, 2]) else PLAIN);
    var slot := pool.made[1];
    ghost var a := pool.Now();
    pool.Fields();
    pool.StateOf(slot);
    assert pool.ExitsItself(slot);
    pool.Step(Exited(1), 1);
    hide Idle;
    ExitArms(2, a, pool.Now(), slot);
    pool.Fields();
    pool.StateOf(slot);
    assert pool.ResumeReplans(0, 1);
    first := pool.RestartTwice(0, 1);
    OwnersAreFew(2, pool.Now());
    pool.Fields();
  }
}
