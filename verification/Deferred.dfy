/** What deferral must keep together: the paths reachable from withheld ones
    through rename links or shared journal generations. */
module DeferredClosures {
  import opened Common
  import DirtySets

  const MAX_DEPENDENCIES := 65_536
  const MAX_VISITED_PATHS := 2 * MAX_DEPENDENCIES
  const MAX_EDGE_VISITS := 2 * MAX_DEPENDENCIES

  type Hint = DirtySets.Change

  /** An arc of the adjacency maps. */
  datatype Arc = Arc(from: string, to: string)

  type Adjacency<T> = map<string, map<string, T>>

  ghost function Arcs<T>(links: Adjacency<T>): (r: set<Arc>)
    ensures forall k :: k in r <==> (k.from in links && k.to in links[k.from])
  {
    set p, q | p in links && q in links[p] :: Arc(p, q)
  }

  function At<T>(links: Adjacency<T>, k: Arc): T
    requires k.from in links && k.to in links[k.from]
  {
    links[k.from][k.to]
  }

  /** Every queued row by its path; of several rows with one path the last. */
  function HintsOf(queued: seq<Hint>): map<string, Hint> {
    if queued == [] then map[]
    else var last := queued[|queued| - 1]; HintsOf(queued[..|queued| - 1])[last.path := last]
  }

  lemma {:induction false} HintsAreRows(queued: seq<Hint>, p: string)
    ensures p in HintsOf(queued) <==> exists i | 0 <= i < |queued| :: queued[i].path == p
    ensures p in HintsOf(queued) ==> HintsOf(queued)[p] in queued && HintsOf(queued)[p].path == p
  {
    if queued != [] {
      HintsAreRows(queued[..|queued| - 1], p);
    }
  }

  // ------------------------------------------------------------ reachability

  /** Some queued row of path `q` carries generation `id`. */
  ghost predicate Carries(queued: seq<Hint>, id: int, q: string) {
    exists i | 0 <= i < |queued| :: queued[i].path == q && queued[i].journalId == Some(id)
  }

  ghost predicate SharesGeneration(queued: seq<Hint>, p: string, q: string) {
    var hints := HintsOf(queued);
    p in hints && hints[p].journalId.Some? && Carries(queued, hints[p].journalId.value, q)
  }

  ghost predicate Edge(arcs: set<Arc>, queued: seq<Hint>, p: string, q: string) {
    Arc(p, q) in arcs || SharesGeneration(queued, p, q)
  }

  ghost predicate Walk(arcs: set<Arc>, queued: seq<Hint>, w: seq<string>) {
    |w| > 0 && forall i | 0 <= i < |w| - 1 :: Edge(arcs, queued, w[i], w[i + 1])
  }

  ghost predicate Reaches(arcs: set<Arc>, queued: seq<Hint>, seeds: set<string>, p: string) {
    exists w :: Walk(arcs, queued, w) && w[0] in seeds && w[|w| - 1] == p
  }

  lemma SeedIsReached(arcs: set<Arc>, queued: seq<Hint>, seeds: set<string>, p: string)
    requires p in seeds
    ensures Reaches(arcs, queued, seeds, p)
  {
    var w := [p];
    assert Walk(arcs, queued, w) && w[0] in seeds && w[|w| - 1] == p;
  }

  lemma StepIsReached(arcs: set<Arc>, queued: seq<Hint>, seeds: set<string>, p: string, q: string)
    requires Reaches(arcs, queued, seeds, p) && Edge(arcs, queued, p, q)
    ensures Reaches(arcs, queued, seeds, q)
  {
    var w :| Walk(arcs, queued, w) && w[0] in seeds && w[|w| - 1] == p;
    var v := w + [q];
    forall i | 0 <= i < |v| - 1
      ensures Edge(arcs, queued, v[i], v[i + 1])
    {
      assert i < |w| - 1 ==> v[i] == w[i] && v[i + 1] == w[i + 1];
    }
    assert Walk(arcs, queued, v) && v[0] in seeds && v[|v| - 1] == q;
  }

  ghost predicate ClosedUnder(arcs: set<Arc>, queued: seq<Hint>, c: set<string>) {
    forall p, q | p in c && Edge(arcs, queued, p, q) :: q in c
  }

  lemma {:induction false} WalkStaysInside(arcs: set<Arc>, queued: seq<Hint>, c: set<string>, w: seq<string>)
    requires ClosedUnder(arcs, queued, c) && Walk(arcs, queued, w) && w[0] in c
    ensures w[|w| - 1] in c
  {
    if |w| > 1 {
      var v := w[..|w| - 1];
      forall i | 0 <= i < |v| - 1
        ensures Edge(arcs, queued, v[i], v[i + 1])
      {
        assert v[i] == w[i] && v[i + 1] == w[i + 1];
      }
      WalkStaysInside(arcs, queued, c, v);
      assert Edge(arcs, queued, w[|w| - 2], w[|w| - 2 + 1]);
    }
  }

  /** Paths that can occur at all, so that closures are finite. */
  ghost function Universe(arcs: set<Arc>, queued: seq<Hint>, seeds: set<string>): set<string> {
    seeds + (set k | k in arcs :: k.to) + (set i | 0 <= i < |queued| :: queued[i].path)
  }

  ghost function Reached(arcs: set<Arc>, queued: seq<Hint>, seeds: set<string>): (r: set<string>)
  {
    set p | p in Universe(arcs, queued, seeds) && Reaches(arcs, queued, seeds, p)
  }

  lemma ReachedIsReachable(arcs: set<Arc>, queued: seq<Hint>, seeds: set<string>, p: string)
    ensures p in Reached(arcs, queued, seeds) <==> Reaches(arcs, queued, seeds, p)
  {
    if Reaches(arcs, queued, seeds, p) {
      var u := Universe(arcs, queued, seeds);
      var w :| Walk(arcs, queued, w) && w[0] in seeds && w[|w| - 1] == p;
      assert ClosedUnder(arcs, queued, u);
      WalkStaysInside(arcs, queued, u, w);
    }
  }

  /** A closed set that holds the seeds and only reachable paths is the closure. */
  lemma ReachedIsLeast(arcs: set<Arc>, queued: seq<Hint>, seeds: set<string>, c: set<string>)
    requires seeds <= c && ClosedUnder(arcs, queued, c)
    requires forall p | p in c :: Reaches(arcs, queued, seeds, p)
    ensures c == Reached(arcs, queued, seeds)
  {
    forall p
      ensures p in c <==> p in Reached(arcs, queued, seeds)
    {
      ReachedIsReachable(arcs, queued, seeds, p);
      if Reaches(arcs, queued, seeds, p) {
        var w :| Walk(arcs, queued, w) && w[0] in seeds && w[|w| - 1] == p;
        WalkStaysInside(arcs, queued, c, w);
      }
    }
  }

  // ------------------------------------------------ connection is symmetric

  ghost predicate Symmetric(arcs: set<Arc>) {
    forall k | k in arcs :: Arc(k.to, k.from) in arcs
  }

  /** A queue holds at most one row for a path, as every queue of the dirty set does. */
  ghost predicate UniquePaths(queued: seq<Hint>) {
    forall i, j | 0 <= i < j < |queued| :: queued[i].path != queued[j].path
  }

  /** The generations of a path's rows are that of its last row. */
  ghost predicate OneGeneration(queued: seq<Hint>) {
    forall i | 0 <= i < |queued| && queued[i].journalId.Some? ::
      queued[i].path in HintsOf(queued) && HintsOf(queued)[queued[i].path].journalId == queued[i].journalId
  }

  lemma UniqueIsOneGeneration(queued: seq<Hint>)
    requires UniquePaths(queued)
    ensures OneGeneration(queued)
  {
    forall i | 0 <= i < |queued|
      ensures queued[i].path in HintsOf(queued) && HintsOf(queued)[queued[i].path] == queued[i]
    {
      HintsAreRows(queued, queued[i].path);
    }
  }

  /** Two paths joined by a walk. */
  ghost predicate Connected(arcs: set<Arc>, queued: seq<Hint>, p: string, q: string) {
    Reaches(arcs, queued, {p}, q)
  }

  /** Whoever shares a queued path's generation can be walked back from. */
  ghost predicate Mutual(arcs: set<Arc>, queued: seq<Hint>) {
    forall p, q | SharesGeneration(queued, p, q) :: Connected(arcs, queued, q, p)
  }

  lemma OneGenerationIsMutual(arcs: set<Arc>, queued: seq<Hint>)
    requires OneGeneration(queued)
    ensures Mutual(arcs, queued)
  {
    forall p, q | SharesGeneration(queued, p, q)
      ensures Connected(arcs, queued, q, p)
    {
      HintsAreRows(queued, p);
      var i :| 0 <= i < |queued| && queued[i] == HintsOf(queued)[p];
      var j :| 0 <= j < |queued| && queued[j].path == q && queued[j].journalId == queued[i].journalId;
      assert queued[i].path == p && queued[i].journalId == Some(queued[j].journalId.value);
      OneEdge(arcs, queued, q, p);
    }
  }

  lemma OneEdge(arcs: set<Arc>, queued: seq<Hint>, p: string, q: string)
    requires Edge(arcs, queued, p, q)
    ensures Connected(arcs, queued, p, q)
  {
    SeedIsReached(arcs, queued, {p}, p);
    StepIsReached(arcs, queued, {p}, p, q);
  }

  lemma {:induction false} WalkedBack(arcs: set<Arc>, queued: seq<Hint>, w: seq<string>)
    requires Symmetric(arcs) && Mutual(arcs, queued) && Walk(arcs, queued, w)
    ensures Connected(arcs, queued, w[|w| - 1], w[0])
  {
    if |w| == 1 {
      SeedIsReached(arcs, queued, {w[0]}, w[0]);
    } else {
      var n := |w| - 1;
      var v := w[..n];
      forall i | 0 <= i < |v| - 1
        ensures Edge(arcs, queued, v[i], v[i + 1])
      {
        assert Edge(arcs, queued, w[i], w[i + 1]);
      }
      WalkedBack(arcs, queued, v);
      assert Edge(arcs, queued, w[n - 1], w[n - 1 + 1]);
      if Arc(w[n - 1], w[n]) in arcs {
        assert Arc(w[n], w[n - 1]) in arcs;
        OneEdge(arcs, queued, w[n], w[n - 1]);
      }
      ReachExtends(arcs, queued, {w[n]}, w[n - 1], w[0]);
    }
  }

  lemma ConnectedBack(arcs: set<Arc>, queued: seq<Hint>, p: string, q: string)
    requires Symmetric(arcs) && Mutual(arcs, queued) && Connected(arcs, queued, p, q)
    ensures Connected(arcs, queued, q, p)
  {
    var w :| Walk(arcs, queued, w) && w[0] in {p} && w[|w| - 1] == q;
    WalkedBack(arcs, queued, w);
  }

  lemma ReachExtends(arcs: set<Arc>, queued: seq<Hint>, seeds: set<string>, p: string, q: string)
    requires Reaches(arcs, queued, seeds, p) && Connected(arcs, queued, p, q)
    ensures Reaches(arcs, queued, seeds, q)
  {
    var c := Reached(arcs, queued, seeds);
    ReachedIsReachable(arcs, queued, seeds, p);
    ReachedIsReachable(arcs, queued, seeds, q);
    forall x, y | x in c && Edge(arcs, queued, x, y)
      ensures y in c
    {
      StepIsReached(arcs, queued, seeds, x, y);
      ReachedIsReachable(arcs, queued, seeds, y);
    }
    var w :| Walk(arcs, queued, w) && w[0] in {p} && w[|w| - 1] == q;
    WalkStaysInside(arcs, queued, c, w);
  }

  // ------------------------------------------------------ what is held back

  datatype Reason = SourceTooLarge | RangeUnavailable | DependentDelete

  datatype Detail = Detail(path: string, reason: Reason, requiredBytes: int, capacityBytes: int)

  function Dependent(p: string): Detail {
    Detail(p, DependentDelete, 0, 0)
  }

  /** The initial details, and every queued path reachable from them. */
  ghost function Closure(held: map<string, Detail>, arcs: set<Arc>, queued: seq<Hint>): map<string, Detail> {
    held + (map p | p in HintsOf(queued) && p !in held && Reaches(arcs, queued, held.Keys, p) :: Dependent(p))
  }

  ghost function ArcsFrom(arcs: set<Arc>, c: set<string>): set<Arc> {
    set k | k in arcs && k.from in c
  }

  /** The admission limits, stated on the closure and not on its traversal. */
  ghost predicate Admissible(seeds: set<string>, arcs: set<Arc>, queued: seq<Hint>) {
    var c := Reached(arcs, queued, seeds);
    |c| <= MAX_VISITED_PATHS && |ArcsFrom(arcs, c)| <= MAX_EDGE_VISITS
  }

  /** No closure puts two connected queued paths on different sides, for every queue
      whose rows of one path agree on their generation, as those of a queue that names
      each path once do, and exactly for those queues in which a shared generation can
      be walked back. */
  lemma KeepsTogetherIff(arcs: set<Arc>, queued: seq<Hint>)
    requires Symmetric(arcs)
    ensures UniquePaths(queued) || OneGeneration(queued) ==> Mutual(arcs, queued)
    ensures Mutual(arcs, queued) <==>
            forall held, p, q | p in HintsOf(queued) && q in HintsOf(queued) && Connected(arcs, queued, p, q) ::
              p in Closure(held, arcs, queued) <==> q in Closure(held, arcs, queued)
  {
    if UniquePaths(queued) { UniqueIsOneGeneration(queued); }
    if OneGeneration(queued) { OneGenerationIsMutual(arcs, queued); }
    if Mutual(arcs, queued) {
      forall held, p, q | p in HintsOf(queued) && q in HintsOf(queued) && Connected(arcs, queued, p, q)
        ensures p in Closure(held, arcs, queued) <==> q in Closure(held, arcs, queued)
      {
        MutualKeepsTogether(held, arcs, queued, p, q);
      }
    } else {
      var p, q :| SharesGeneration(queued, p, q) && !Connected(arcs, queued, q, p);
      SplitByHolding(arcs, queued, p, q);
    }
  }

  /** Holding a path that cannot be walked back from leaves the other behind. */
  lemma SplitByHolding(arcs: set<Arc>, queued: seq<Hint>, p: string, q: string)
    requires SharesGeneration(queued, p, q) && !Connected(arcs, queued, q, p)
    ensures p in HintsOf(queued) && q in HintsOf(queued) && Connected(arcs, queued, p, q)
    ensures var held := map[q := Dependent(q)];
      q in Closure(held, arcs, queued) && p !in Closure(held, arcs, queued)
  {
    HintsAreRows(queued, q);
    OneEdge(arcs, queued, p, q);
    SeedIsReached(arcs, queued, {q}, q);
    assert map[q := Dependent(q)].Keys == {q};
  }

  /** Such a queue: `p` is queued twice and shares its earlier generation with `q`. */
  lemma RepeatedPathIsSplit(p: Hint, again: Hint, q: Hint)
    requires p.path == again.path != q.path && p.journalId == q.journalId
    requires p.journalId.Some? && again.journalId.Some? && again.journalId != q.journalId
    ensures var queued, held := [p, again, q], map[p.path := Dependent(p.path)];
      Connected({}, queued, q.path, p.path) && p.path in Closure(held, {}, queued) &&
        q.path !in Closure(held, {}, queued)
  {
    var queued := [p, again, q];
    assert queued[..2] == [p, again] && [p, again][..1] == [p] && [p][..0] == [];
    assert HintsOf([p]) == HintsOf([])[p.path := p];
    assert HintsOf([p, again]) == HintsOf([p])[p.path := again];
    assert HintsOf(queued) == HintsOf([p, again])[q.path := q];
    assert queued[0].path == p.path && queued[0].journalId == Some(q.journalId.value);
    assert SharesGeneration(queued, q.path, p.path);
    var alone := {p.path};
    if Connected({}, queued, p.path, q.path) {
      var w :| Walk({}, queued, w) && w[0] in {p.path} && w[|w| - 1] == q.path;
      WalkStaysInside({}, queued, alone, w);
    }
    SplitByHolding({}, queued, q.path, p.path);
  }

  lemma ClosureKeepsTogether(held: map<string, Detail>, arcs: set<Arc>, queued: seq<Hint>, p: string, q: string)
    requires Symmetric(arcs) && OneGeneration(queued)
    requires p in HintsOf(queued) && q in HintsOf(queued) && Connected(arcs, queued, p, q)
    ensures p in Closure(held, arcs, queued) <==> q in Closure(held, arcs, queued)
  {
    OneGenerationIsMutual(arcs, queued);
    MutualKeepsTogether(held, arcs, queued, p, q);
  }

  lemma MutualKeepsTogether(held: map<string, Detail>, arcs: set<Arc>, queued: seq<Hint>, p: string, q: string)
    requires Symmetric(arcs) && Mutual(arcs, queued)
    requires p in HintsOf(queued) && q in HintsOf(queued) && Connected(arcs, queued, p, q)
    ensures p in Closure(held, arcs, queued) <==> q in Closure(held, arcs, queued)
  {
    ConnectedBack(arcs, queued, p, q);
    forall x | x in held
      ensures Reaches(arcs, queued, held.Keys, x)
    {
      SeedIsReached(arcs, queued, held.Keys, x);
    }
    if p in Closure(held, arcs, queued) {
      ReachExtends(arcs, queued, held.Keys, p, q);
    }
    if q in Closure(held, arcs, queued) {
      ReachExtends(arcs, queued, held.Keys, q, p);
    }
  }

  /** Closing twice adds nothing: retrying with the returned details is stable. */
  lemma ClosureIsStable(held: map<string, Detail>, arcs: set<Arc>, queued: seq<Hint>)
    ensures Closure(Closure(held, arcs, queued), arcs, queued) == Closure(held, arcs, queued)
  {
    var once := Closure(held, arcs, queued);
    forall p | p in HintsOf(queued) && Reaches(arcs, queued, once.Keys, p)
      ensures p in once
    {
      var w :| Walk(arcs, queued, w) && w[0] in once.Keys && w[|w| - 1] == p;
      if w[0] in held {
        assert Reaches(arcs, queued, held.Keys, p);
      } else {
        assert w[0] in {w[0]};
        assert Connected(arcs, queued, w[0], p);
        ReachExtends(arcs, queued, held.Keys, w[0], p);
      }
    }
  }

  // ---------------------------------------- the worklist, one step at a time

  /** Paths grouped by generation, in queue order. */
  function ById(queued: seq<Hint>): map<int, seq<string>> {
    if queued == [] then map[]
    else
      var last := queued[|queued| - 1];
      var rest := ById(queued[..|queued| - 1]);
      match last.journalId
      case None => rest
      case Some(id) => rest[id := (if id in rest then rest[id] else []) + [last.path]]
  }

  lemma {:induction false} GroupsAreCarriers(queued: seq<Hint>, id: int, q: string)
    ensures (id in ById(queued) && q in ById(queued)[id]) <==> Carries(queued, id, q)
  {
    if queued != [] {
      GroupsAreCarriers(queued[..|queued| - 1], id, q);
    }
  }

  datatype Frontier = Frontier(visit: seq<string>, visited: set<string>, held: map<string, Detail>)

  /** Everything found is reachable, and what is held is what was found. */
  ghost predicate Sound(f: Frontier, held: map<string, Detail>, arcs: set<Arc>, queued: seq<Hint>) {
    && Listed(f) && held.Keys <= f.visited <= Reached(arcs, queued, held.Keys)
    && f.held == HeldWith(held, HintsOf(queued), f.visited)
  }

  /** The worklist lists each visited path once. */
  ghost predicate Listed(f: Frontier) {
    && (forall p :: p in f.visited <==> p in f.visit)
    && (forall i, j | 0 <= i < j < |f.visit| :: f.visit[i] != f.visit[j])
    && |f.visit| == |f.visited|
  }

  ghost function HeldWith(held: map<string, Detail>, hints: map<string, Hint>, c: set<string>): map<string, Detail> {
    held + (map p | p in hints && p !in held && p in c :: Dependent(p))
  }

  lemma HoldSeeds(held: map<string, Detail>, hints: map<string, Hint>)
    ensures HeldWith(held, hints, held.Keys) == held
  {
  }

  lemma SeedsAreReached(arcs: set<Arc>, queued: seq<Hint>, seeds: set<string>)
    ensures seeds <= Reached(arcs, queued, seeds)
  {
    forall p | p in seeds
      ensures p in Reached(arcs, queued, seeds)
    {
      SeedIsReached(arcs, queued, seeds, p);
    }
  }

  lemma HoldOne(held: map<string, Detail>, hints: map<string, Hint>, c: set<string>, next: string)
    requires next !in held
    ensures HeldWith(held, hints, c + {next})
         == if next in hints then HeldWith(held, hints, c)[next := Dependent(next)] else HeldWith(held, hints, c)
  {
  }

  /** The worklist holds exactly the seeds that do not remain. */
  ghost predicate Seeded(f: Frontier, held: map<string, Detail>, remain: set<string>) {
    && remain <= held.Keys && f.visited == held.Keys - remain && f.held == held && Listed(f)
  }

  lemma NothingSeeded(held: map<string, Detail>)
    ensures Seeded(Frontier([], {}, held), held, held.Keys)
  {
  }

  method Seed(f: Frontier, remain: set<string>, enforce: bool, ghost held: map<string, Detail>)
    returns (ok: bool, r: Frontier, rest: set<string>)
    requires Seeded(f, held, remain) && remain != {}
    ensures rest < remain
    ensures ok ==> Seeded(r, held, rest) && (enforce ==> |r.visited| <= MAX_VISITED_PATHS)
    ensures !ok ==> enforce && |held| > MAX_VISITED_PATHS
  {
    hide Seeded;
    var path :| path in remain;
    rest := remain - {path};
    SeededMore(f, remain, path, held);
    if enforce && |f.visited| >= MAX_VISITED_PATHS { return false, f, rest; }
    return true, Frontier(f.visit + [path], f.visited + {path}, f.held), rest;
  }

  lemma SeededMore(f: Frontier, remain: set<string>, path: string, held: map<string, Detail>)
    requires Seeded(f, held, remain) && path in remain
    ensures |f.visited| < |held| && |f.visited + {path}| == |f.visited| + 1
    ensures Seeded(Frontier(f.visit + [path], f.visited + {path}, f.held), held, remain - {path})
  {
    Larger(f.visited, path, held.Keys);
  }

  lemma SeededIsSound(f: Frontier, held: map<string, Detail>, arcs: set<Arc>, queued: seq<Hint>)
    requires Seeded(f, held, {})
    ensures Sound(f, held, arcs, queued) && f.visited == held.Keys
  {
    hide Reached, HeldWith, HintsOf;
    SeedsAreReached(arcs, queued, held.Keys);
    HoldSeeds(held, HintsOf(queued));
  }

  lemma ManySeeds(held: map<string, Detail>, arcs: set<Arc>, queued: seq<Hint>)
    ensures |held| <= |Reached(arcs, queued, held.Keys)|
  {
    hide Reached;
    SeedsAreReached(arcs, queued, held.Keys);
    Smaller(held.Keys, Reached(arcs, queued, held.Keys));
  }

  /** One path seen: unknown ones join the worklist and, if queued, are held. */
  method Include(f: Frontier, next: string, hints: map<string, Hint>, enforce: bool,
                 ghost held: map<string, Detail>, ghost arcs: set<Arc>, ghost queued: seq<Hint>)
    returns (ok: bool, r: Frontier)
    requires Sound(f, held, arcs, queued) && hints == HintsOf(queued)
    requires next in Reached(arcs, queued, held.Keys)
    ensures ok ==> Sound(r, held, arcs, queued) && r.visited == f.visited + {next} && f.visit <= r.visit
    ensures ok && enforce && |f.visited| <= MAX_VISITED_PATHS ==> |r.visited| <= MAX_VISITED_PATHS
    ensures !ok ==> enforce && |Reached(arcs, queued, held.Keys)| > MAX_VISITED_PATHS
  {
    hide Reached, HeldWith, HintsOf;
    if next in f.visited { return true, f; }
    if enforce && |f.visited| >= MAX_VISITED_PATHS {
      Larger(f.visited, next, Reached(arcs, queued, held.Keys));
      return false, f;
    }
    HoldOne(held, hints, f.visited, next);
    r := Frontier(f.visit + [next], f.visited + {next},
                  if next in hints then f.held[next := Dependent(next)] else f.held);
    ok := true;
  }

  // ------------------------------------------------- the outgoing arcs of a path

  /** The arcs out of `path` that lead outside `ends`. */
  ghost function Followed(arcs: set<Arc>, path: string, ends: set<string>): set<Arc> {
    set k | k in arcs && k.from == path && k.to !in ends
  }

  /** All arcs out of `path` but those to `ends` were followed and counted. */
  ghost predicate Following(start: seq<string>, f: Frontier, visits: nat, path: string, ends: set<string>,
                            seen: set<Arc>, held: map<string, Detail>, arcs: set<Arc>, queued: seq<Hint>)
  {
    && start <= f.visit && Sound(f, held, arcs, queued) && path in Reached(arcs, queued, held.Keys)
    && (forall q | q in ends :: Arc(path, q) in arcs)
    && (forall k | k in Followed(arcs, path, ends) :: k.to in f.visited)
    && seen <= ArcsFrom(arcs, Reached(arcs, queued, held.Keys)) && (forall k | k in seen :: k.from != path)
    && visits == |seen + Followed(arcs, path, ends)|
  }

  ghost predicate Within(f: Frontier, visits: nat, enforce: bool) {
    enforce ==> |f.visited| <= MAX_VISITED_PATHS && visits <= MAX_EDGE_VISITS
  }

  method FollowArc(f: Frontier, visits: nat, path: string, ends: set<string>, hints: map<string, Hint>, enforce: bool,
                   ghost start: seq<string>, ghost seen: set<Arc>, ghost held: map<string, Detail>,
                   ghost arcs: set<Arc>, ghost queued: seq<Hint>)
    returns (ok: bool, r: Frontier, rest: set<string>)
    requires ends != {} && hints == HintsOf(queued) && Within(f, visits, enforce)
    requires Following(start, f, visits, path, ends, seen, held, arcs, queued)
    ensures rest < ends
    ensures ok ==>
      Following(start, r, visits + 1, path, rest, seen, held, arcs, queued) && Within(r, visits + 1, enforce)
    ensures !ok ==> enforce && !Admissible(held.Keys, arcs, queued)
  {
    hide Reached, Sound, HintsOf;
    var next :| next in ends;
    rest := ends - {next};
    OneMoreArc(seen, arcs, path, ends, next, Reached(arcs, queued, held.Keys));
    if visits + 1 > MAX_EDGE_VISITS && enforce { return false, f, rest; }
    ArcIsReached(arcs, queued, held.Keys, path, next);
    ok, r := Include(f, next, hints, enforce, held, arcs, queued);
    if !ok { r := f; }
  }

  lemma OneMoreArc(seen: set<Arc>, arcs: set<Arc>, path: string, ends: set<string>, next: string, c: set<string>)
    requires next in ends && Arc(path, next) in arcs && path in c
    requires seen <= ArcsFrom(arcs, c) && forall k | k in seen :: k.from != path
    ensures Followed(arcs, path, ends - {next}) == Followed(arcs, path, ends) + {Arc(path, next)}
    ensures |seen + Followed(arcs, path, ends - {next})| == |seen + Followed(arcs, path, ends)| + 1
    ensures |seen + Followed(arcs, path, ends - {next})| <= |ArcsFrom(arcs, c)|
  {
    var less, more := seen + Followed(arcs, path, ends), seen + Followed(arcs, path, ends - {next});
    assert more == less + {Arc(path, next)} && Arc(path, next) !in less;
    Smaller(more, ArcsFrom(arcs, c));
  }

  lemma ArcIsReached(arcs: set<Arc>, queued: seq<Hint>, seeds: set<string>, p: string, q: string)
    requires p in Reached(arcs, queued, seeds) && Edge(arcs, queued, p, q)
    ensures q in Reached(arcs, queued, seeds)
  {
    ReachedIsReachable(arcs, queued, seeds, p);
    StepIsReached(arcs, queued, seeds, p, q);
    ReachedIsReachable(arcs, queued, seeds, q);
  }

  // ------------------------------------------------------ the whole exploration

  datatype Exploration = Exploration(f: Frontier, byId: map<int, seq<string>>, visits: nat)

  ghost function First(f: Frontier, index: nat): set<string>
    requires index <= |f.visit|
  {
    set i | 0 <= i < index :: f.visit[i]
  }

  /** A deleted group was visited entirely; the others are untouched. */
  ghost predicate Grouped(byId: map<int, seq<string>>, visited: set<string>, queued: seq<Hint>) {
    && (forall id | id in byId :: id in ById(queued) && byId[id] == ById(queued)[id])
    && (forall id, q | id in ById(queued) && id !in byId && q in ById(queued)[id] :: q in visited)
  }

  /** The first `index` paths of the worklist have been expanded. */
  ghost predicate Exploring(x: Exploration, index: nat, held: map<string, Detail>, arcs: set<Arc>, queued: seq<Hint>) {
    && Sound(x.f, held, arcs, queued) && index <= |x.f.visit|
    && (forall p, q | p in First(x.f, index) && Edge(arcs, queued, p, q) :: q in x.f.visited)
    && Grouped(x.byId, x.f.visited, queued)
    && x.visits == |ArcsFrom(arcs, First(x.f, index))|
  }

  lemma StartExploring(f: Frontier, held: map<string, Detail>, arcs: set<Arc>, queued: seq<Hint>)
    requires Sound(f, held, arcs, queued)
    ensures Exploring(Exploration(f, ById(queued), 0), 0, held, arcs, queued)
  {
    hide Sound, ById, Edge;
    assert First(f, 0) == {} && ArcsFrom(arcs, {}) == {};
  }

  lemma StartFollowing(x: Exploration, index: nat, ends: set<string>, held: map<string, Detail>, arcs: set<Arc>,
                       queued: seq<Hint>)
    requires Exploring(x, index, held, arcs, queued) && index < |x.f.visit|
    requires forall q :: q in ends <==> Arc(x.f.visit[index], q) in arcs
    ensures Following(x.f.visit, x.f, x.visits, x.f.visit[index], ends, ArcsFrom(arcs, First(x.f, index)), held, arcs,
      queued)
  {
    hide Reached, Edge, Grouped, HeldWith, HintsOf;
    var path := x.f.visit[index];
    assert Followed(arcs, path, ends) == {};
    assert path !in First(x.f, index);
    assert First(x.f, index) <= Reached(arcs, queued, held.Keys);
    var seen := ArcsFrom(arcs, First(x.f, index));
    assert seen + Followed(arcs, path, ends) == seen;
  }

  /** After its arcs and its group, a path is expanded. */
  lemma Advance(x: Exploration, index: nat, y: Exploration, held: map<string, Detail>, arcs: set<Arc>,
                queued: seq<Hint>)
    requires Exploring(x, index, held, arcs, queued) && index < |x.f.visit|
    requires Grouped(y.byId, y.f.visited, queued)
    requires Following(x.f.visit, y.f, y.visits, x.f.visit[index], {}, ArcsFrom(arcs, First(x.f, index)), held, arcs,
      queued)
    requires forall q | SharesGeneration(queued, x.f.visit[index], q) :: q in y.f.visited
    ensures Exploring(y, index + 1, held, arcs, queued)
  {
    hide Reached, SharesGeneration, Grouped, HeldWith, HintsOf, First, ArcsFrom, Listed, Closure;
    var path := x.f.visit[index];
    FirstGrows(x.f, y.f, index);
    VisitedGrows(x.f, y.f);
    ArcsFromMore(arcs, First(x.f, index), path);
    forall p, q | p in First(y.f, index + 1) && Edge(arcs, queued, p, q)
      ensures q in y.f.visited
    {
      assert p == path && Arc(p, q) in arcs ==> Arc(p, q) in Followed(arcs, path, {});
    }
  }

  lemma FirstGrows(f: Frontier, g: Frontier, index: nat)
    requires f.visit <= g.visit && index < |f.visit|
    ensures First(g, index + 1) == First(f, index) + {f.visit[index]}
  {
  }

  lemma ArcsFromMore(arcs: set<Arc>, c: set<string>, p: string)
    ensures ArcsFrom(arcs, c + {p}) == ArcsFrom(arcs, c) + Followed(arcs, p, {})
  {
  }

  lemma VisitedGrows(f: Frontier, g: Frontier)
    requires Listed(f) && Listed(g) && f.visit <= g.visit
    ensures f.visited <= g.visited
  {
    forall p | p in f.visited
      ensures p in g.visited
    {
      var i :| 0 <= i < |f.visit| && f.visit[i] == p;
      assert g.visit[i] == p;
    }
  }

  /** When every listed path is expanded, exactly the closure is held. */
  lemma ExplorationEnds(x: Exploration, enforce: bool, held: map<string, Detail>, arcs: set<Arc>, queued: seq<Hint>)
    requires Exploring(x, |x.f.visit|, held, arcs, queued) && Within(x.f, x.visits, enforce)
    ensures x.f.held == Closure(held, arcs, queued)
    ensures enforce ==> Admissible(held.Keys, arcs, queued)
  {
    hide Reached, HeldWith, HintsOf, ArcsFrom, Closure, Reaches, Edge, Grouped;
    assert First(x.f, |x.f.visit|) == x.f.visited;
    AllReached(arcs, queued, held.Keys);
    ReachedIsLeast(arcs, queued, held.Keys, x.f.visited);
    HeldIsClosure(held, arcs, queued);
  }

  lemma HeldIsClosure(held: map<string, Detail>, arcs: set<Arc>, queued: seq<Hint>)
    ensures HeldWith(held, HintsOf(queued), Reached(arcs, queued, held.Keys)) == Closure(held, arcs, queued)
  {
    hide Reached, Reaches, HintsOf;
    AllReached(arcs, queued, held.Keys);
  }

  lemma AllReached(arcs: set<Arc>, queued: seq<Hint>, seeds: set<string>)
    ensures forall p :: p in Reached(arcs, queued, seeds) <==> Reaches(arcs, queued, seeds, p)
  {
    forall p {
      ReachedIsReachable(arcs, queued, seeds, p);
    }
  }

  /** An expanded or deleted group leaves no peer of `path` unvisited. */
  lemma PeersAreVisited(byId: map<int, seq<string>>, visited: set<string>, queued: seq<Hint>, path: string)
    requires Grouped(byId, visited, queued)
    requires path in HintsOf(queued) && HintsOf(queued)[path].journalId.Some? ==>
      HintsOf(queued)[path].journalId.value !in byId
    ensures forall q | SharesGeneration(queued, path, q) :: q in visited
  {
    forall q | SharesGeneration(queued, path, q)
      ensures q in visited
    {
      GroupsAreCarriers(queued, HintsOf(queued)[path].journalId.value, q);
    }
  }

  lemma PeersAreReached(arcs: set<Arc>, queued: seq<Hint>, seeds: set<string>, path: string, id: int)
    requires path in Reached(arcs, queued, seeds) && path in HintsOf(queued) &&
      HintsOf(queued)[path].journalId == Some(id)
    requires id in ById(queued)
    ensures forall q | q in ById(queued)[id] :: q in Reached(arcs, queued, seeds)
  {
    forall q | q in ById(queued)[id]
      ensures q in Reached(arcs, queued, seeds)
    {
      GroupsAreCarriers(queued, id, q);
      ArcIsReached(arcs, queued, seeds, path, q);
    }
  }

  lemma GroupIsReached(x: Exploration, index: nat, y: Exploration, peers: seq<string>, held: map<string, Detail>,
                       arcs: set<Arc>, queued: seq<Hint>)
    requires Exploring(x, index, held, arcs, queued) && index < |x.f.visit|
    requires Following(x.f.visit, y.f, y.visits, x.f.visit[index], {}, ArcsFrom(arcs, First(x.f, index)), held, arcs,
      queued)
    requires var path, hints := x.f.visit[index], HintsOf(queued);
      peers == if path in hints && hints[path].journalId.Some? && hints[path].journalId.value in x.byId
               then x.byId[hints[path].journalId.value] else []
    ensures Sound(y.f, held, arcs, queued) && forall q | q in peers :: q in Reached(arcs, queued, held.Keys)
  {
    hide Reached, Edge, First, ArcsFrom, HeldWith, HintsOf, ById, Followed;
    var path, hints := x.f.visit[index], HintsOf(queued);
    if peers != [] {
      PeersAreReached(arcs, queued, held.Keys, path, hints[path].journalId.value);
    }
  }

  lemma GroupDone(x: Exploration, index: nat, y: Exploration, z: Exploration, held: map<string, Detail>, arcs: set<Arc>,
                  queued: seq<Hint>)
    requires Exploring(x, index, held, arcs, queued) && index < |x.f.visit| && x.byId == y.byId && y.visits == z.visits
    requires y.f.visit <= z.f.visit && Sound(z.f, held, arcs, queued) && y.f.visited <= z.f.visited
    requires Following(x.f.visit, y.f, y.visits, x.f.visit[index], {}, ArcsFrom(arcs, First(x.f, index)), held, arcs,
      queued)
    requires var path, hints := x.f.visit[index], HintsOf(queued);
      if path in hints && hints[path].journalId.Some? then
        var id := hints[path].journalId.value;
        z.byId == y.byId - {id} && (id in y.byId ==> forall q | q in y.byId[id] :: q in z.f.visited)
      else z.byId == y.byId
    ensures Grouped(z.byId, z.f.visited, queued)
    ensures forall q | SharesGeneration(queued, x.f.visit[index], q) :: q in z.f.visited
    ensures Following(x.f.visit, z.f, z.visits, x.f.visit[index], {}, ArcsFrom(arcs, First(x.f, index)), held, arcs,
      queued)
  {
    hide Reached, Edge, First, ArcsFrom, HeldWith, HintsOf, ById, SharesGeneration, Followed;
    VisitedGrows(x.f, y.f);
    PeersAreVisited(z.byId, z.f.visited, queued, x.f.visit[index]);
  }

  lemma WorklistFits(x: Exploration, index: nat, held: map<string, Detail>, arcs: set<Arc>, queued: seq<Hint>)
    requires Exploring(x, index, held, arcs, queued)
    ensures index <= |x.f.visit| <= |Reached(arcs, queued, held.Keys)|
  {
    hide Reached, Edge, First, ArcsFrom, HeldWith, HintsOf, ById, Grouped;
    Smaller(x.f.visited, Reached(arcs, queued, held.Keys));
  }

  lemma Larger<T>(a: set<T>, x: T, b: set<T>)
    requires a <= b && x in b && x !in a
    ensures |a| < |b|
  {
    Smaller(a + {x}, b);
  }

  lemma {:induction false} Smaller<T>(a: set<T>, b: set<T>)
    requires a <= b
    ensures |a| <= |b|
  {
    if a != {} {
      var x :| x in a;
      Smaller(a - {x}, b - {x});
    }
  }

  // ------------------------------------------------------------- retry policy

  datatype FileChange = FileChange(path: string, state: DirtySets.FileState)

  function Compact(change: FileChange, id: Option<int>): Hint {
    DirtySets.Change(change.path, id, change.state)
  }

  /** When a withheld source may be tried again. */
  datatype Due = After(time: real) | Never

  predicate Later(due: Due, now: real) {
    due.Never? || now < due.time
  }

  datatype Record = Record(hint: Hint, current: Hint, detail: Detail, retryKey: string, due: Due)

  predicate SameHint(a: Hint, b: Hint) {
    a.journalId == b.journalId && a.state == b.state
  }

  predicate SameRecord(a: Record, b: Record) {
    && SameHint(a.hint, b.hint) && SameHint(a.current, b.current)
    && a.detail == b.detail && a.retryKey == b.retryKey && a.due == b.due
  }

  type Records = map<string, Record>

  /** Rows keyed by their own path, so that equal scalars mean equal records. */
  ghost predicate Filed(records: Records) {
    forall p | p in records :: records[p].hint.path == p && records[p].current.path == p && records[p].detail.path == p
  }

  datatype Plan = Plan(retryKey: string, now: real, force: bool)

  /** The source of this unchanged hint is still known to be unavailable. */
  predicate Cooling(change: FileChange, records: Records, hints: map<string, Hint>, plan: Plan) {
    && change.path in records && change.path in hints
    && var previous, hint := records[change.path], hints[change.path];
    && previous.detail.reason != DependentDelete && !change.state.action.Deleted?
    && SameHint(hint, previous.hint) && SameHint(Compact(change, hint.journalId), previous.current)
    && previous.retryKey == plan.retryKey
    && (previous.detail.reason == RangeUnavailable || Later(previous.due, plan.now))
  }

  function CoolingHeld(changes: seq<FileChange>, records: Records, hints: map<string, Hint>,
                       plan: Plan): map<string, Detail> {
    if changes == [] then map[]
    else
      var rest, last := CoolingHeld(changes[..|changes| - 1], records, hints, plan), changes[|changes| - 1];
      if Cooling(last, records, hints, plan) then rest[last.path := records[last.path].detail] else rest
  }

  predicate Depends(change: FileChange, records: Records) {
    change.state.action.Deleted? || (change.path in records && records[change.path].detail.reason == DependentDelete)
  }

  function WithDependents(held: map<string, Detail>, changes: seq<FileChange>, records: Records): map<string, Detail> {
    if changes == [] then held
    else
      var rest, last := WithDependents(held, changes[..|changes| - 1], records), changes[|changes| - 1];
      if Depends(last, records) then rest[last.path := Dependent(last.path)] else rest
  }

  function Ready(changes: seq<FileChange>, held: map<string, Detail>): seq<FileChange> {
    if changes == [] then []
    else
      var rest, last := Ready(changes[..|changes| - 1], held), changes[|changes| - 1];
      if last.path in held then rest else rest + [last]
  }

  /** The paths from which the closure starts; none when nothing is cooling. */
  function WithheldFrom(hints: map<string, Hint>, changes: seq<FileChange>, records: Records,
                        plan: Plan): map<string, Detail> {
    if plan.force then map[]
    else
      var cooling := CoolingHeld(changes, records, hints, plan);
      if |cooling| == 0 then map[] else WithDependents(cooling, changes, records)
  }

  function Withheld(queued: seq<Hint>, changes: seq<FileChange>, records: Records, plan: Plan): map<string, Detail> {
    WithheldFrom(HintsOf(queued), changes, records, plan)
  }

  ghost function HeldBack(queued: seq<Hint>, changes: seq<FileChange>, records: Records, arcs: set<Arc>,
                          plan: Plan): map<string, Detail> {
    Closure(Withheld(queued, changes, records, plan), arcs, queued)
  }

  lemma NothingHeld(arcs: set<Arc>, queued: seq<Hint>)
    ensures Closure(map[], arcs, queued) == map[] && Admissible({}, arcs, queued)
  {
    assert Reached(arcs, queued, {}) == {};
    assert ArcsFrom(arcs, {}) == {};
  }

  /** Partition never splits a connected group: its queued members are all ready or all held. */
  lemma PartitionKeepsTogether(queued: seq<Hint>, changes: seq<FileChange>, records: Records, arcs: set<Arc>,
                               plan: Plan, i: nat, j: nat)
    requires Symmetric(arcs) && OneGeneration(queued) && i < |changes| && j < |changes|
    requires changes[i].path in HintsOf(queued) && changes[j].path in HintsOf(queued)
    requires Connected(arcs, queued, changes[i].path, changes[j].path)
    ensures var held := HeldBack(queued, changes, records, arcs, plan);
      changes[i] in Ready(changes, held) <==> changes[j] in Ready(changes, held)
  {
    var held := HeldBack(queued, changes, records, arcs, plan);
    ClosureKeepsTogether(Withheld(queued, changes, records, plan), arcs, queued, changes[i].path, changes[j].path);
    ReadyIsTheRest(changes, held, changes[i]);
    ReadyIsTheRest(changes, held, changes[j]);
  }

  lemma {:induction false} ReadyIsTheRest(changes: seq<FileChange>, held: map<string, Detail>, c: FileChange)
    ensures multiset(Ready(changes, held))[c] == if c.path in held then 0 else multiset(changes)[c]
  {
    if changes != [] {
      var rest, last := changes[..|changes| - 1], changes[|changes| - 1];
      ReadyIsTheRest(rest, held, c);
      assert changes == rest + [last];
    }
  }

  // --------------------------------------------------------------- settlement

  datatype Acknowledgement = Acknowledgement(path: string, throughId: int)

  function CurrentOf(changes: seq<FileChange>): map<string, FileChange> {
    if changes == [] then map[]
    else var last := changes[|changes| - 1]; CurrentOf(changes[..|changes| - 1])[last.path := last]
  }

  lemma {:induction false} CurrentIsFiled(changes: seq<FileChange>, p: string)
    ensures p in CurrentOf(changes) ==> CurrentOf(changes)[p].path == p
  {
    if changes != [] {
      CurrentIsFiled(changes[..|changes| - 1], p);
    }
  }

  function Refreshed(hint: Hint, current: map<string, FileChange>): Hint {
    if hint.path in current then Compact(current[hint.path], hint.journalId) else hint
  }

  predicate ValidDetail(d: Detail, hints: map<string, Hint>) {
    && d.path in hints && 0 <= d.requiredBytes <= MAX_SAFE_INTEGER && 0 <= d.capacityBytes <= MAX_SAFE_INTEGER
  }

  function HeldOf(details: seq<Detail>): map<string, Detail> {
    if details == [] then map[]
    else var last := details[|details| - 1]; HeldOf(details[..|details| - 1])[last.path := last]
  }

  function Retained(queued: seq<Hint>, held: map<string, Detail>, current: map<string, FileChange>): seq<Hint> {
    if queued == [] then []
    else
      var rest, last := Retained(queued[..|queued| - 1], held, current), queued[|queued| - 1];
      if last.path in held then rest + [Refreshed(last, current)] else rest
  }

  function Acknowledged(queued: seq<Hint>, held: map<string, Detail>): seq<Acknowledgement> {
    if queued == [] then []
    else
      var rest, last := Acknowledged(queued[..|queued| - 1], held), queued[|queued| - 1];
      if last.path !in held && last.journalId.Some? then rest + [Acknowledgement(last.path, last.journalId.value)]
      else rest
  }

  function RecordFor(hint: Hint, detail: Detail, records: Records, plan: Plan, retryMs: real): Record {
    var previous := if hint.path in records then Some(records[hint.path]) else None;
    var kept := previous.Some? && SameHint(hint, previous.value.hint) && previous.value.retryKey == plan.retryKey
      && previous.value.detail.reason == detail.reason && Later(previous.value.due, plan.now);
    Record(hint, hint, detail, plan.retryKey,
           if detail.reason == RangeUnavailable then Never
           else if kept then previous.value.due
           else After(plan.now + retryMs))
  }

  function Settled(records: Records, queued: seq<Hint>, held: map<string, Detail>, current: map<string, FileChange>,
                   plan: Plan, retryMs: real): Records {
    if queued == [] then records
    else
      var rest, last := Settled(records, queued[..|queued| - 1], held, current, plan, retryMs), queued[|queued| - 1];
      if last.path !in held then rest - {last.path}
      else rest[last.path := RecordFor(Refreshed(last, current), held[last.path], rest, plan, retryMs)]
  }

  /** Details and current rows keyed by their own path. */
  ghost predicate Keyed(held: map<string, Detail>, current: map<string, FileChange>) {
    (forall p | p in held :: held[p].path == p) && (forall p | p in current :: current[p].path == p)
  }

  lemma {:induction false} HeldIsKeyed(details: seq<Detail>)
    ensures forall p | p in HeldOf(details) :: HeldOf(details)[p].path == p
  {
    if details != [] {
      HeldIsKeyed(details[..|details| - 1]);
    }
  }

  lemma SettlementIsKeyed(details: seq<Detail>, arcs: set<Arc>, queued: seq<Hint>, changes: seq<FileChange>)
    ensures Keyed(Closure(HeldOf(details), arcs, queued), CurrentOf(changes))
  {
    hide HeldOf, CurrentOf, HintsOf, Reaches;
    HeldIsKeyed(details);
    forall p | p in CurrentOf(changes)
      ensures CurrentOf(changes)[p].path == p
    {
      CurrentIsFiled(changes, p);
    }
  }

  /** Equal scalars under one key are the same record, so nothing need be written. */
  lemma SameMeansEqual(records: Records, hint: Hint, held: map<string, Detail>, current: map<string, FileChange>,
                       plan: Plan, retryMs: real)
    requires Filed(records) && Keyed(held, current) && hint.path in held
    ensures var record := RecordFor(Refreshed(hint, current), held[hint.path], records, plan, retryMs);
      && Filed(records[hint.path := record])
      && (hint.path in records && SameRecord(records[hint.path], record) ==> records[hint.path := record] == records)
  {
  }

  lemma SettledOnce(records: Records, rows: seq<Hint>, hint: Hint, held: map<string, Detail>,
                    current: map<string, FileChange>, plan: Plan, retryMs: real)
    ensures Settled(records, rows + [hint], held, current, plan, retryMs)
         == Settled(Settled(records, rows, held, current, plan, retryMs), [hint], held, current, plan, retryMs)
  {
    assert (rows + [hint])[..|rows|] == rows && [hint][..0] == [];
  }

  /** Every queued row is retained or, if journaled, acknowledged through its own
      generation; nothing else is. */
  lemma {:induction false} SettlementSplitsTheQueue(queued: seq<Hint>, held: map<string, Detail>,
                                                    current: map<string, FileChange>)
    ensures |Retained(queued, held, current)| + |Acknowledged(queued, held)| <= |queued|
    ensures forall i | 0 <= i < |queued| ::
      if queued[i].path in held then Refreshed(queued[i], current) in Retained(queued, held, current)
      else queued[i].journalId.Some? ==>
        Acknowledgement(queued[i].path, queued[i].journalId.value) in Acknowledged(queued, held)
    ensures forall a | a in Acknowledged(queued, held) ::
      a.path !in held &&
        exists i | 0 <= i < |queued| :: queued[i].path == a.path && queued[i].journalId == Some(a.throughId)
  {
    if queued != [] {
      SettlementSplitsTheQueue(queued[..|queued| - 1], held, current);
    }
  }

  /** Two connected queued paths are never one acknowledged and one withheld. */
  lemma SettlementKeepsTogether(held: map<string, Detail>, arcs: set<Arc>, queued: seq<Hint>, a: Acknowledgement,
                                q: string)
    requires Symmetric(arcs) && OneGeneration(queued) && q in HintsOf(queued) && Connected(arcs, queued, a.path, q)
    requires a in Acknowledged(queued, Closure(held, arcs, queued))
    ensures q !in Closure(held, arcs, queued)
  {
    SettlementSplitsTheQueue(queued, Closure(held, arcs, queued), map[]);
    HintsAreRows(queued, a.path);
    ClosureKeepsTogether(held, arcs, queued, a.path, q);
  }

  /** One source settled again and again. */
  function SettledOver(records: Records, hint: Hint, detail: Detail, plans: seq<Plan>, retryMs: real): (r: Records)
    ensures hint.path in records ==> hint.path in r
  {
    if plans == [] then records
    else
      var rest := SettledOver(records, hint, detail, plans[..|plans| - 1], retryMs);
      rest[hint.path := RecordFor(hint, detail, rest, plans[|plans| - 1], retryMs)]
  }

  /** However often other work settles meanwhile, an unchanged withheld source
      keeps its first retry time until that time has come. */
  lemma {:induction false} RetryIsNotPostponed(records: Records, hint: Hint, detail: Detail, first: Plan,
                                               plans: seq<Plan>, retryMs: real)
    requires forall i | 0 <= i < |plans| ::
      plans[i].retryKey == first.retryKey && Later(RecordFor(hint, detail, records, first, retryMs).due, plans[i].now)
    ensures var r := RecordFor(hint, detail, records, first, retryMs);
      SettledOver(records[hint.path := r], hint, detail, plans, retryMs)[hint.path] == r
  {
    if plans != [] {
      RetryIsNotPostponed(records, hint, detail, first, plans[..|plans| - 1], retryMs);
    }
  }
}
