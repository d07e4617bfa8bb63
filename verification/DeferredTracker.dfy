/** The deferred-change tracker: a registry of shared rename links, retry
    records, and planning runs that the host may interrupt. */
module DeferredTrackers {
  import opened Common
  import opened DeferredClosures

  const WORK_UNITS := 256

  // ---------------------------------------------- the link graph as a value

  /** A link's fields. */
  datatype LinkState = LinkState(left: string, right: string, generation: int, pending: int, uncertain: bool)

  type Graph = map<Arc, LinkState>

  predicate ValidGeneration(generation: Option<int>) {
    generation.Some? ==> 0 < generation.value <= MAX_SAFE_INTEGER
  }

  function WithLink(g: Graph, e: LinkState): Graph {
    g[Arc(e.left, e.right) := e][Arc(e.right, e.left) := e]
  }

  /** A rename registered, with its generation or while its append is pending. */
  function Registered(g: Graph, a: string, b: string, id: Option<int>): Graph {
    if a == b then g
    else
      var e := if Arc(a, b) in g then g[Arc(a, b)] else LinkState(a, b, 0, 0, false);
      WithLink(g, match id
                  case Some(n) => e.(generation := Max(e.generation, n))
                  case None => e.(pending := e.pending + 1))
  }

  lemma RenameToItself(g: Graph, a: string, id: Option<int>)
    ensures Registered(g, a, a, id) == g
  {}

  /** The pending append of link `k` ended, in a known generation or not. */
  function Confirmed(g: Graph, k: Arc, id: Option<int>): Graph
    requires k in g
  {
    var e := g[k].(pending := g[k].pending - 1);
    WithLink(g, match id
                case Some(n) => e.(generation := Max(e.generation, n))
                case None => e.(uncertain := true))
  }

  function Through(w: map<string, int>, p: string): int {
    if p in w then w[p] else 0
  }

  predicate Retirable(e: LinkState, w: map<string, int>) {
    && e.pending <= 0 && !e.uncertain && e.generation != 0
    && Through(w, e.left) >= e.generation && Through(w, e.right) >= e.generation
  }

  function Retired(g: Graph, w: map<string, int>): Graph {
    map k | k in g && !Retirable(g[k], w) :: g[k]
  }

  /** Only retirable links of `g` are missing from `h`. */
  ghost predicate Pruned(g: Graph, h: Graph, w: map<string, int>) {
    && (forall k | k in h :: k in g && h[k] == g[k])
    && (forall k | k in g && k !in h :: Retirable(g[k], w))
  }

  /** No link at these paths is retirable. */
  ghost predicate Swept(g: Graph, paths: set<string>, w: map<string, int>) {
    forall k | k in g && k.from in paths :: !Retirable(g[k], w)
  }

  /** At `path` only links to `ends` may still be retirable. */
  ghost predicate Cleared(g: Graph, path: string, ends: set<string>, w: map<string, int>) {
    forall k | k in g && k.from == path && k.to !in ends :: !Retirable(g[k], w)
  }

  /** Every arc starts at an endpoint of its link, and generations are not negative. */
  ghost predicate Anchored(g: Graph) {
    forall k | k in g :: (k.from == g[k].left || k.from == g[k].right) && g[k].generation >= 0
  }

  lemma SweepIsComplete(g: Graph, h: Graph, w: map<string, int>)
    requires Pruned(g, h, w) && Swept(h, w.Keys, w) && Anchored(h)
    ensures h == Retired(g, w)
  {
  }

  lemma NothingPruned(g: Graph, w: map<string, int>)
    ensures Pruned(g, g, w)
  {
  }

  lemma DropRetirable(g: Graph, e: LinkState, w: map<string, int>)
    requires var a, b := Arc(e.left, e.right), Arc(e.right, e.left); a in g && b in g && g[a] == g[b] == e
    requires Retirable(e, w)
    ensures Pruned(g, g - {Arc(e.left, e.right), Arc(e.right, e.left)}, w)
  {
    hide Retirable;
  }

  lemma PruneOn(g: Graph, h: Graph, i: Graph, w: map<string, int>)
    requires Pruned(g, h, w) && Pruned(h, i, w)
    ensures Pruned(g, i, w) && forall k | k in i :: k in h && i[k] == h[k]
  {
    hide Retirable;
  }

  lemma NoLongerWaits(e: LinkState, w: map<string, int>)
    requires Retirable(e, w)
    ensures e.pending <= 0
  {
  }

  // ------------------------------------------------------------- whole runs

  /** Both directions of every pair are present, and no other arcs. */
  ghost predicate Mirrored(g: Graph) {
    forall k | k in g ::
      && (k == Arc(g[k].left, g[k].right) || k == Arc(g[k].right, g[k].left))
      && Arc(k.to, k.from) in g && g[Arc(k.to, k.from)] == g[k]
  }

  /** Mirrored, and no generation is negative. */
  ghost predicate Regular(g: Graph) {
    Mirrored(g) && forall k | k in g :: g[k].generation >= 0
  }

  /** A tracker's dependencies as a value: the link graph, the pair that each
      registration still waits for, and the watermarks of each settlement that is
      not committed. */
  datatype Tracking = Tracking(graph: Graph, awaited: seq<Option<Arc>>, open: seq<Option<map<string, int>>>)

  const UNTRACKED := Tracking(map[], [], [])

  ghost predicate Acceptable(acks: seq<Acknowledgement>) {
    forall i | 0 <= i < |acks| :: 0 < acks[i].throughId <= MAX_SAFE_INTEGER
  }

  ghost predicate Settleable(queued: seq<Hint>, deferred: seq<Detail>) {
    forall i | 0 <= i < |deferred| :: ValidDetail(deferred[i], HintsOf(queued))
  }

  /** What a settlement of this queue acknowledges. */
  ghost function SettledAcks(g: Graph, queued: seq<Hint>, deferred: seq<Detail>): seq<Acknowledgement> {
    Acknowledged(queued, Closure(HeldOf(deferred), g.Keys, queued))
  }

  ghost function AfterRegister(s: Tracking, a: string, b: string, id: Option<int>): Tracking {
    if !ValidGeneration(id) then s
    else
      var g := Registered(s.graph, a, b, id);
      var awaited := if a != b && id.None? then Some(Arc(g[Arc(a, b)].left, g[Arc(a, b)].right)) else None;
      s.(graph := g, awaited := s.awaited + [awaited])
  }

  ghost function AfterConfirm(s: Tracking, i: nat, generation: Option<int>): Tracking {
    if i < |s.awaited| && s.awaited[i].Some? && s.awaited[i].value in s.graph && ValidGeneration(generation)
    then s.(graph := Confirmed(s.graph, s.awaited[i].value, generation), awaited := s.awaited[i := None])
    else s
  }

  ghost function AfterSettle(s: Tracking, queued: seq<Hint>, deferred: seq<Detail>): Tracking {
    if Settleable(queued, deferred)
    then s.(open := s.open + [Some(WatermarksOf(SettledAcks(s.graph, queued, deferred)))]) else s
  }

  ghost function AfterCommit(s: Tracking, i: nat): Tracking {
    if i < |s.open| && s.open[i].Some? then s.(graph := Retired(s.graph, s.open[i].value), open := s.open[i := None])
    else s
  }

  ghost function AfterAcks(s: Tracking, acks: seq<Acknowledgement>): Tracking {
    if Acceptable(acks) then s.(graph := Retired(s.graph, GreatestOf(acks))) else s
  }

  /** One event. */
  ghost function Stepped(s: Tracking, e: Event): Tracking {
    match e
    case Register(a, b, id) => AfterRegister(s, a, b, id)
    case Confirm(i, generation) => AfterConfirm(s, i, generation)
    case Settle(queued, _, deferred, _) => AfterSettle(s, queued, deferred)
    case CommitSettlement(i) => AfterCommit(s, i)
    case CommitAcknowledged(acks) => AfterAcks(s, acks)
  }

  /** A run of events. */
  ghost function Played(s: Tracking, es: seq<Event>): Tracking {
    if es == [] then s else Stepped(Played(s, es[..|es| - 1]), es[|es| - 1])
  }

  lemma WithLinkIsMirrored(g: Graph, e: LinkState)
    requires Mirrored(g) &&
      (Arc(e.left, e.right) in g ==> g[Arc(e.left, e.right)].left == e.left || g[Arc(e.left, e.right)].left == e.right)
    ensures Mirrored(WithLink(g, e))
  {
  }

  lemma RetiredIsMirrored(g: Graph, w: map<string, int>)
    requires Mirrored(g)
    ensures Mirrored(Retired(g, w))
  {
    hide Retirable;
  }

  lemma RetiredIsRegular(g: Graph, w: map<string, int>)
    requires Regular(g)
    ensures Regular(Retired(g, w))
  {
    hide Retirable;
    RetiredIsMirrored(g, w);
  }

  lemma WithLinkIsRegular(g: Graph, e: LinkState)
    requires Regular(g) && e.generation >= 0
    requires Arc(e.left, e.right) in g ==>
      g[Arc(e.left, e.right)].left == e.left || g[Arc(e.left, e.right)].left == e.right
    ensures Regular(WithLink(g, e))
  {
    hide Mirrored;
    WithLinkIsMirrored(g, e);
  }

  /** A link is stored under the arcs between its ends. */
  lemma EndsOf(g: Graph, k: Arc)
    requires Mirrored(g) && k in g
    ensures k == Arc(g[k].left, g[k].right) || k == Arc(g[k].right, g[k].left)
    ensures Arc(g[k].left, g[k].right) in g && g[Arc(g[k].left, g[k].right)] == g[k]
  {
  }

  lemma LinkedBetween(g: Graph, e: LinkState, a: string, b: string)
    requires (e.left == a && e.right == b) || (e.left == b && e.right == a)
    ensures Arc(a, b) in WithLink(g, e) && WithLink(g, e)[Arc(a, b)] == e
  {
  }

  lemma RegisterIsRegular(g: Graph, a: string, b: string, id: Option<int>)
    requires Regular(g) && ValidGeneration(id)
    ensures Regular(Registered(g, a, b, id))
  {
    hide Mirrored, WithLink;
    if a != b {
      var e := if Arc(a, b) in g then g[Arc(a, b)] else LinkState(a, b, 0, 0, false);
      if Arc(a, b) in g { EndsOf(g, Arc(a, b)); }
      WithLinkIsRegular(g, match id
                           case Some(n) => e.(generation := Max(e.generation, n))
                           case None => e.(pending := e.pending + 1));
    }
  }

  lemma ConfirmIsRegular(g: Graph, k: Arc, id: Option<int>)
    requires Regular(g) && k in g && ValidGeneration(id)
    ensures Regular(Confirmed(g, k, id))
  {
    hide Mirrored, WithLink;
    EndsOf(g, k);
    var e := g[k].(pending := g[k].pending - 1);
    WithLinkIsRegular(g, match id
                         case Some(n) => e.(generation := Max(e.generation, n))
                         case None => e.(uncertain := true));
  }

  lemma StepIsRegular(s: Tracking, e: Event)
    requires Regular(s.graph)
    ensures Regular(Stepped(s, e).graph)
  {
    hide Regular, Registered, Confirmed, Retired, ValidGeneration, Settleable, Acceptable, GreatestOf, WatermarksOf,
         SettledAcks;
    var g := s.graph;
    match e {
      case Register(a, b, id) =>
        if ValidGeneration(id) { RegisterIsRegular(g, a, b, id); }
      case Confirm(i, generation) =>
        if i < |s.awaited| && s.awaited[i].Some? && s.awaited[i].value in g && ValidGeneration(generation) {
          ConfirmIsRegular(g, s.awaited[i].value, generation);
        }
      case Settle(_, _, _, _) =>
      case CommitSettlement(i) =>
        if i < |s.open| && s.open[i].Some? { RetiredIsRegular(g, s.open[i].value); }
      case CommitAcknowledged(acks) => RetiredIsRegular(g, GreatestOf(acks));
    }
  }

  lemma {:induction false} RunIsRegular(s: Tracking, es: seq<Event>)
    requires Regular(s.graph)
    ensures Regular(Played(s, es).graph)
  {
    hide Regular, Stepped;
    if es != [] {
      RunIsRegular(s, es[..|es| - 1]);
      StepIsRegular(Played(s, es[..|es| - 1]), es[|es| - 1]);
    }
  }

  /** The event retires links, by these watermarks. */
  ghost predicate RetiresBy(s: Tracking, e: Event, w: map<string, int>) {
    || (e.CommitAcknowledged? && Acceptable(e.acknowledged) && w == GreatestOf(e.acknowledged))
    || (e.CommitSettlement? && e.settlement < |s.open| && s.open[e.settlement] == Some(w))
  }

  /** A link that stays keeps its ends; its generation never falls and its
      uncertainty never goes away. A link that goes was retirable by the event. */
  lemma StepKeepsLinks(s: Tracking, e: Event, k: Arc)
    requires Regular(s.graph) && k in s.graph
    ensures var h := Stepped(s, e).graph;
      if k in h then h[k].generation >= s.graph[k].generation && (s.graph[k].uncertain ==> h[k].uncertain)
      else exists w :: RetiresBy(s, e, w) && Retirable(s.graph[k], w)
  {
    hide Retirable, Settleable, Acceptable, GreatestOf, WatermarksOf, SettledAcks;
    var g, h := s.graph, Stepped(s, e).graph;
    match e {
      case Register(a, b, id) =>
        assert k in h && (h[k] != g[k] ==> k == Arc(a, b) || k == Arc(b, a));
      case Confirm(i, generation) =>
        if h != g {
          var x := s.awaited[i].value;
          assert k in h && (h[k] != g[k] ==> k == x || k == Arc(x.to, x.from));
        }
      case Settle(_, _, _, _) =>
      case CommitSettlement(i) =>
        if k !in h { assert RetiresBy(s, e, s.open[i].value) && Retirable(g[k], s.open[i].value); }
      case CommitAcknowledged(acks) =>
        if k !in h { assert RetiresBy(s, e, GreatestOf(acks)) && Retirable(g[k], GreatestOf(acks)); }
    }
  }

  // Watermarks come from acknowledgements.

  ghost predicate AcksThrough(acks: seq<Acknowledgement>, p: string, generation: int) {
    exists a :: a in acks && a.path == p && a.throughId >= generation
  }

  lemma {:induction false} MarkIsAcknowledged(acks: seq<Acknowledgement>, p: string)
    ensures p in WatermarksOf(acks) ==> Acknowledgement(p, WatermarksOf(acks)[p]) in acks
  {
    if acks != [] { MarkIsAcknowledged(acks[..|acks| - 1], p); }
  }

  lemma {:induction false} GreatestIsAcknowledged(acks: seq<Acknowledgement>, p: string)
    requires Acceptable(acks)
    ensures p in GreatestOf(acks) ==> Acknowledgement(p, GreatestOf(acks)[p]) in acks
  {
    if acks != [] { GreatestIsAcknowledged(acks[..|acks| - 1], p); }
  }

  /** Event `j` issued settlement `i`. */
  ghost predicate IssuedAt(es: seq<Event>, j: nat, i: nat) {
    && j < |es| && es[j].Settle? && Settleable(es[j].queued, es[j].deferred)
    && |Played(UNTRACKED, es[..j]).open| == i
  }

  /** What the settlement issued by event `j` acknowledged. */
  ghost function IssuedAcks(es: seq<Event>, j: nat): seq<Acknowledgement>
    requires j < |es| && es[j].Settle?
  {
    SettledAcks(Played(UNTRACKED, es[..j]).graph, es[j].queued, es[j].deferred)
  }

  /** Every uncommitted settlement was issued by an event of the run and has the
      watermarks that it acknowledged then. */
  lemma {:induction false} OpenWasIssued(es: seq<Event>, i: nat) returns (j: nat)
    requires i < |Played(UNTRACKED, es).open| && Played(UNTRACKED, es).open[i].Some?
    ensures IssuedAt(es, j, i) && Played(UNTRACKED, es).open[i].value == WatermarksOf(IssuedAcks(es, j))
    ensures forall l | j < l < |es| :: es[l] != CommitSettlement(i)
  {
    hide Settleable, SettledAcks, WatermarksOf, Acceptable, Registered, Confirmed, Retired, ValidGeneration, GreatestOf;
    var n := |es| - 1;
    var before, e := Played(UNTRACKED, es[..n]), es[n];
    if e.Settle? && Settleable(e.queued, e.deferred) && i == |before.open| {
      j := n;
    } else {
      j := OpenWasIssued(es[..n], i);
      assert es[..n][..j] == es[..j];
    }
  }

  /** Event `m` acknowledges `p` through this generation: itself, or by committing a
      settlement that an earlier event of the run issued with that acknowledgement. */
  ghost predicate Acknowledges(es: seq<Event>, m: nat, p: string, generation: int)
    requires m < |es|
  {
    match es[m]
    case CommitAcknowledged(acks) => Acceptable(acks) && AcksThrough(acks, p, generation)
    case CommitSettlement(i) =>
      exists j: nat :: j < m && IssuedAt(es, j, i) && AcksThrough(IssuedAcks(es, j), p, generation) &&
                       forall l | j < l < m :: es[l] != CommitSettlement(i)
    case _ => false
  }

  lemma MarkMeansAcknowledged(es: seq<Event>, m: nat, w: map<string, int>, p: string, generation: int)
    requires m < |es| && RetiresBy(Played(UNTRACKED, es[..m]), es[m], w) && Through(w, p) >= generation > 0
    ensures Acknowledges(es, m, p, generation)
  {
    hide Acceptable, Settleable, SettledAcks, WatermarksOf, GreatestOf, Stepped;
    match es[m] {
      case CommitAcknowledged(acks) =>
        GreatestIsAcknowledged(acks, p);
        assert Acknowledgement(p, w[p]) in acks;
      case CommitSettlement(i) =>
        var j := OpenWasIssued(es[..m], i);
        assert es[..m][..j] == es[..j] && es[..m][j] == es[j];
        MarkIsAcknowledged(IssuedAcks(es, j), p);
        assert Acknowledgement(p, w[p]) in IssuedAcks(es, j);
        assert IssuedAt(es, j, i);
        forall l | j < l < m
          ensures es[l] != CommitSettlement(i)
        {
          assert es[..m][l] == es[l];
        }
    }
  }

  /** The link is settled for good, and event `m` acknowledges both of its ends. */
  ghost predicate RetiredAt(es: seq<Event>, m: nat, k: Arc) {
    m < |es| && k in Played(UNTRACKED, es[..m]).graph &&
    var e := Played(UNTRACKED, es[..m]).graph[k];
    && e.pending <= 0 && !e.uncertain && e.generation > 0
    && Acknowledges(es, m, e.left, e.generation) && Acknowledges(es, m, e.right, e.generation)
  }

  /** Over every run, a link that was registered disappears only in an event that
      acknowledges both ends through its generation, while no registration of it is
      pending and none is uncertain. */
  lemma {:induction false} RemovedOnlyWhenAcknowledged(es: seq<Event>, n: nat, k: Arc) returns (m: nat)
    requires n <= |es| && k in Played(UNTRACKED, es[..n]).graph && k !in Played(UNTRACKED, es).graph
    ensures n <= m < |es| && RetiredAt(es, m, k)
    decreases |es|
  {
    hide Stepped, Acknowledges, RetiresBy, Regular, Retirable;
    assert es[..|es|] == es;
    var last := |es| - 1;
    var before := es[..last];
    if k in Played(UNTRACKED, before).graph {
      m := last;
      EmptyIsRegular();
      RunIsRegular(UNTRACKED, before);
      StepKeepsLinks(Played(UNTRACKED, before), es[last], k);
      var w :| RetiresBy(Played(UNTRACKED, before), es[last], w) && Retirable(Played(UNTRACKED, before).graph[k], w);
      RetirableMeans(Played(UNTRACKED, before).graph, k, w);
      var e := Played(UNTRACKED, before).graph[k];
      MarkMeansAcknowledged(es, m, w, e.left, e.generation);
      MarkMeansAcknowledged(es, m, w, e.right, e.generation);
    } else {
      assert n <= last && before[..n] == es[..n];
      m := RemovedOnlyWhenAcknowledged(before, n, k);
      Longer(es, m, k);
    }
  }

  lemma EmptyIsRegular()
    ensures Regular(UNTRACKED.graph)
  {
  }

  lemma RetirableMeans(g: Graph, k: Arc, w: map<string, int>)
    requires Regular(g) && k in g && Retirable(g[k], w)
    ensures g[k].pending <= 0 && !g[k].uncertain && g[k].generation > 0
    ensures Through(w, g[k].left) >= g[k].generation && Through(w, g[k].right) >= g[k].generation
  {
  }

  /** What an event did does not depend on later ones. */
  lemma Longer(es: seq<Event>, m: nat, k: Arc)
    requires es != [] && RetiredAt(es[..|es| - 1], m, k)
    ensures RetiredAt(es, m, k)
  {
    hide Stepped, Acceptable, AcksThrough, SettledAcks, Settleable;
    var before := es[..|es| - 1];
    assert before[..m] == es[..m] && before[m] == es[m];
    var e := Played(UNTRACKED, es[..m]).graph[k];
    LongerAcks(es, m, e.left, e.generation);
    LongerAcks(es, m, e.right, e.generation);
  }

  lemma LongerAcks(es: seq<Event>, m: nat, p: string, generation: int)
    requires es != [] && m < |es| - 1 && Acknowledges(es[..|es| - 1], m, p, generation)
    ensures Acknowledges(es, m, p, generation)
  {
    hide Stepped, Acceptable, AcksThrough, SettledAcks, Settleable;
    var before := es[..|es| - 1];
    assert before[m] == es[m];
    if es[m].CommitSettlement? {
      var i := es[m].settlement;
      var j: nat :| j < m && IssuedAt(before, j, i) && AcksThrough(IssuedAcks(before, j), p, generation) &&
                    forall l | j < l < m :: before[l] != CommitSettlement(i);
      assert before[..j] == es[..j] && before[j] == es[j];
      assert IssuedAt(es, j, i) && AcksThrough(IssuedAcks(es, j), p, generation);
      assert forall l | j < l < m :: es[l] == before[l];
    }
  }

  /** An ambiguous append keeps its pair linked in every later state. */
  lemma {:induction false} UncertainIsForever(es: seq<Event>, n: nat, k: Arc)
    requires n <= |es| && k in Played(UNTRACKED, es[..n]).graph && Played(UNTRACKED, es[..n]).graph[k].uncertain
    ensures k in Played(UNTRACKED, es).graph && Played(UNTRACKED, es).graph[k].uncertain
    decreases |es|
  {
    hide Stepped, RetiresBy, Regular;
    if n < |es| {
      var before := es[..|es| - 1];
      assert before[..n] == es[..n];
      UncertainIsForever(before, n, k);
      EmptyIsRegular();
      RunIsRegular(UNTRACKED, before);
      StepKeepsLinks(Played(UNTRACKED, before), es[|es| - 1], k);
    } else {
      assert es[..n] == es;
    }
  }

  lemma MirroredEnds(g: Graph, p: string)
    requires Mirrored(g)
    ensures (exists k :: k in g && k.from == p) <==> (exists k :: k in g && (g[k].left == p || g[k].right == p))
  {
    if k :| k in g && (g[k].left == p || g[k].right == p) {
      assert k.from == p || Arc(k.to, k.from) in g;
    }
  }

  // ---------------------------------------------------- dependency snapshots

  /** One detached row per linked pair. */
  datatype Snapshot = Snapshot(left: string, right: string, generation: int, pending: bool, uncertain: bool)

  function SnapshotOf(e: LinkState): Snapshot {
    Snapshot(e.left, e.right, e.generation, e.pending > 0, e.uncertain)
  }

  /** Each pair once: the arc from its left endpoint. */
  ghost function Pairs(g: Graph): set<Arc> {
    set k | k in g && k.from == g[k].left
  }

  /** The rows of exactly those pairs whose left arc was seen. */
  ghost predicate Capturing(rows: seq<Snapshot>, seen: set<Arc>, g: Graph) {
    && seen <= g.Keys && |rows| == |Pairs(g) * seen|
    && (forall row | row in rows :: exists k :: k in Pairs(g) && k in seen && row == SnapshotOf(g[k]))
    && (forall k | k in Pairs(g) && k in seen :: SnapshotOf(g[k]) in rows)
  }

  /** One row for each pair of the graph, and nothing else. */
  ghost predicate IsCapture(rows: seq<Snapshot>, g: Graph) {
    Capturing(rows, g.Keys, g)
  }

  lemma CaptureOne(rows: seq<Snapshot>, seen: set<Arc>, g: Graph, k: Arc)
    requires Capturing(rows, seen, g) && k in g && k !in seen
    ensures k in Pairs(g) ==> Capturing(rows + [SnapshotOf(g[k])], seen + {k}, g) && |rows| < |Pairs(g)|
    ensures k !in Pairs(g) ==> Capturing(rows, seen + {k}, g)
    ensures |seen + {k}| == |seen| + 1 <= |g|
  {
    hide SnapshotOf;
    Smaller(seen + {k}, g.Keys);
    if k in Pairs(g) {
      assert Pairs(g) * (seen + {k}) == Pairs(g) * seen + {k};
      var more := rows + [SnapshotOf(g[k])];
      forall row | row in more
        ensures exists x :: x in Pairs(g) && x in seen + {k} && row == SnapshotOf(g[x])
      {
        if row in rows {
          var x :| x in Pairs(g) && x in seen && row == SnapshotOf(g[x]);
          assert x in seen + {k};
        } else {
          assert k in seen + {k} && row == SnapshotOf(g[k]);
        }
      }
      Larger(Pairs(g) * seen, k, Pairs(g));
    } else {
      assert Pairs(g) * (seen + {k}) == Pairs(g) * seen;
    }
  }

  ghost function Backward(s: set<Arc>): set<Arc> {
    set k | k in s :: Arc(k.to, k.from)
  }

  ghost function Sources(s: set<Arc>): set<string> {
    set k | k in s :: k.from
  }

  ghost function Targets(s: set<Arc>): set<string> {
    set k | k in s :: k.to
  }

  lemma {:induction false} ImagesAreNoLarger(s: set<Arc>)
    ensures |Backward(s)| <= |s| && |Sources(s)| <= |s| && |Targets(s)| <= |s|
  {
    if s == {} {
      assert Backward(s) == {} && Sources(s) == {} && Targets(s) == {};
    } else {
      var x :| x in s;
      ImagesAreNoLarger(s - {x});
      OneMoreArc(s - {x}, x);
      assert s - {x} + {x} == s;
      hide Backward, Sources, Targets;
    }
  }

  lemma OneMoreArc(s: set<Arc>, x: Arc)
    ensures Backward(s + {x}) == Backward(s) + {Arc(x.to, x.from)}
    ensures Sources(s + {x}) == Sources(s) + {x.from} && Targets(s + {x}) == Targets(s) + {x.to}
  {
    forall k | k in Backward(s) + {Arc(x.to, x.from)}
      ensures k in Backward(s + {x})
    {
      assert Arc(k.to, k.from) in s + {x};
    }
  }

  lemma CoveredByTwo<T>(s: set<T>, a: set<T>, b: set<T>)
    requires s <= a + b
    ensures |s| <= |a| + |b|
  {
    Smaller(s, a + b);
    assert |a + b| <= |a| + |b|;
  }

  /** Twice the pairs bounds the arcs, and the paths that have any. */
  lemma PairsBoundArcs(g: Graph, paths: set<string>)
    requires Mirrored(g) && forall p | p in paths :: exists k :: k in g && k.from == p
    ensures |g| <= 2 * |Pairs(g)| && |paths| <= 2 * |Pairs(g)|
  {
    ImagesAreNoLarger(Pairs(g));
    ArcsAreCovered(g, paths);
    CoveredByTwo(g.Keys, Pairs(g), Backward(Pairs(g)));
    CoveredByTwo(paths, Sources(Pairs(g)), Targets(Pairs(g)));
  }

  lemma ArcsAreCovered(g: Graph, paths: set<string>)
    requires Mirrored(g) && forall p | p in paths :: exists k :: k in g && k.from == p
    ensures g.Keys <= Pairs(g) + Backward(Pairs(g))
    ensures paths <= Sources(Pairs(g)) + Targets(Pairs(g))
  {
    forall k | k in g
      ensures k in Pairs(g) || Arc(k.to, k.from) in Pairs(g)
    {
    }
    forall k | k in g
      ensures k in Pairs(g) + Backward(Pairs(g))
    {
      if k !in Pairs(g) {
        var m := Arc(k.to, k.from);
        assert m in Pairs(g) && k == Arc(m.to, m.from);
      }
    }
    forall p | p in paths
      ensures p in Sources(Pairs(g)) + Targets(Pairs(g))
    {
      var k :| k in g && k.from == p;
      if k !in Pairs(g) {
        assert Arc(k.to, k.from) in Pairs(g) && Arc(k.to, k.from).to == p;
      }
    }
  }

  ghost predicate Fits(rows: seq<Snapshot>, limit: Option<nat>) {
    limit.Some? ==> |rows| <= limit.value
  }

  ghost predicate TooMany(g: Graph, limit: Option<nat>) {
    limit.Some? && |Pairs(g)| > limit.value
  }

  /** One edge visit: a row for the left arc of a pair, none for its mirror. */
  method CaptureLink(k: Arc, e: LinkState, rows: seq<Snapshot>, visits: nat, limit: Option<nat>, ghost seen: set<Arc>,
                     ghost g: Graph)
    returns (ok: bool, more: seq<Snapshot>)
    requires Capturing(rows, seen, g) && k in g && g[k] == e && k !in seen && visits == |seen| && Mirrored(g) &&
      Fits(rows, limit)
    ensures ok ==> Capturing(more, seen + {k}, g) && Fits(more, limit) && visits + 1 == |seen + {k}|
    ensures !ok ==> TooMany(g, limit)
  {
    hide Capturing, Mirrored;
    CaptureOne(rows, seen, g, k);
    PairsBoundArcs(g, {});
    if limit.Some? && visits + 1 > 2 * limit.value { return false, rows; }
    if k.from == e.left {
      if limit.Some? && |rows| >= limit.value { return false, rows; }
      return true, rows + [SnapshotOf(e)];
    }
    return true, rows;
  }

  /** The arcs out of `path`, but those to `ends`, were captured and counted. */
  ghost predicate CapturingPath(rows: seq<Snapshot>, count: nat, path: string, ends: set<string>, seen: set<Arc>,
                                g: Graph, limit: Option<nat>) {
    && (forall k | k in seen :: k.from != path) && (forall to | to in ends :: Arc(path, to) in g)
    && Capturing(rows, seen + Followed(g.Keys, path, ends), g) && count == |seen + Followed(g.Keys, path, ends)|
    && Fits(rows, limit)
  }

  method CaptureNext(path: string, to: string, e: LinkState, rows: seq<Snapshot>, count: nat, limit: Option<nat>,
                     ghost ends: set<string>, ghost seen: set<Arc>, ghost g: Graph)
    returns (ok: bool, more: seq<Snapshot>)
    requires CapturingPath(rows, count, path, ends, seen, g, limit) && Mirrored(g)
    requires to in ends && Arc(path, to) in g && g[Arc(path, to)] == e
    ensures ok ==> CapturingPath(more, count + 1, path, ends - {to}, seen, g, limit)
    ensures !ok ==> TooMany(g, limit)
  {
    hide Capturing, Mirrored, Followed, Fits, TooMany;
    FollowOne(g.Keys, seen, path, ends, to);
    ok, more := CaptureLink(Arc(path, to), e, rows, count, limit, seen + Followed(g.Keys, path, ends), g);
  }

  lemma StartPath(rows: seq<Snapshot>, path: string, ends: set<string>, seen: set<Arc>, g: Graph, limit: Option<nat>)
    requires Capturing(rows, seen, g) && Fits(rows, limit) && (forall k | k in seen :: k.from != path)
    requires forall to :: to in ends <==> Arc(path, to) in g
    ensures CapturingPath(rows, |seen|, path, ends, seen, g, limit)
  {
    hide Capturing, Fits;
    assert Followed(g.Keys, path, ends) == {};
    assert seen + Followed(g.Keys, path, ends) == seen;
  }

  ghost predicate CapturingPaths(rows: seq<Snapshot>, visits: nat, done: set<string>, g: Graph, limit: Option<nat>) {
    Capturing(rows, ArcsFrom(g.Keys, done), g) && visits == |ArcsFrom(g.Keys, done)| && Fits(rows, limit)
  }

  /** The keys of a map, each visited once in some order. */
  ghost predicate Tour(done: set<string>, paths: set<string>, keys: set<string>, count: nat) {
    done !! paths && done + paths == keys && count + |paths| == |keys|
  }

  lemma StartTour(keys: set<string>)
    ensures Tour({}, keys, keys, 0)
  {
  }

  method Pick(paths: set<string>, ghost done: set<string>, ghost keys: set<string>, ghost count: nat)
    returns (path: string, rest: set<string>)
    requires paths != {} && Tour(done, paths, keys, count)
    ensures rest < paths && path in keys && path !in done && Tour(done + {path}, rest, keys, count + 1) &&
      count < |keys|
  {
    path :| path in paths;
    rest := paths - {path};
    assert done + {path} + rest == keys;
  }

  lemma EndTour(done: set<string>, keys: set<string>, count: nat)
    requires Tour(done, {}, keys, count)
    ensures done == keys
  {
  }

  lemma FollowOne(arcs: set<Arc>, seen: set<Arc>, path: string, ends: set<string>, to: string)
    requires to in ends && Arc(path, to) in arcs && forall k | k in seen :: k.from != path
    ensures Arc(path, to) !in seen + Followed(arcs, path, ends)
    ensures seen + Followed(arcs, path, ends - {to}) == seen + Followed(arcs, path, ends) + {Arc(path, to)}
  {
  }

  // ------------------------------------------------------ adjacency updates

  function WithArc<T>(links: Adjacency<T>, p: string, q: string, l: T): Adjacency<T> {
    links[p := (if p in links then links[p] else map[])[q := l]]
  }

  /** Deletes an arc, and a path with no arcs left. */
  function WithoutArc<T>(links: Adjacency<T>, p: string, q: string): Adjacency<T> {
    if p !in links then links
    else if |links[p] - {q}| == 0 then links - {p}
    else links[p := links[p] - {q}]
  }

  ghost predicate NoneEmpty<T>(links: Adjacency<T>) {
    forall p | p in links :: links[p] != map[]
  }

  lemma ArcAdded<T>(links: Adjacency<T>, p: string, q: string, l: T)
    ensures var r := WithArc(links, p, q, l);
      && Arcs(r) == Arcs(links) + {Arc(p, q)} && (NoneEmpty(links) ==> NoneEmpty(r))
      && (forall k | k in Arcs(r) :: At(r, k) == if k == Arc(p, q) then l else At(links, k))
  {
    var r := WithArc(links, p, q, l);
    assert q in r[p];
  }

  lemma ArcRemoved<T>(links: Adjacency<T>, p: string, q: string)
    ensures var r := WithoutArc(links, p, q);
      && Arcs(r) == Arcs(links) - {Arc(p, q)} && (NoneEmpty(links) ==> NoneEmpty(r))
      && (forall k | k in Arcs(r) :: At(r, k) == At(links, k))
  {
    var r := WithoutArc(links, p, q);
    if p in links {
      var rest := links[p] - {q};
      assert |rest| == 0 <==> rest == map[];
      assert rest == map[] <==> p !in r;
      forall k
        ensures k in Arcs(r) <==> k in Arcs(links) && k != Arc(p, q)
      {
        if k.from == p {
          assert p in r ==> r[p] == rest;
          assert k.to in rest <==> k.to in links[p] && k.to != q;
        }
      }
    }
  }

  class Revision {
    constructor () {}
  }

  /** `LegacyRenameLink`: one object per pair, shared by both endpoints. */
  class Link {
    const left: string
    const right: string
    var generation: int
    var pendingRegistrations: int
    var uncertain: bool

    constructor (left: string, right: string)
      ensures this.left == left && this.right == right
      ensures State() == LinkState(left, right, 0, 0, false)
    {
      this.left, this.right := left, right;
      generation, pendingRegistrations, uncertain := 0, 0, false;
    }

    function State(): LinkState
      reads this
    {
      LinkState(left, right, generation, pendingRegistrations, uncertain)
    }
  }

  /** A registration handed out; without a link its confirmation does nothing. */
  class Registration {
    const link: Link?
    var confirmed: bool

    constructor (link: Link?)
      ensures this.link == link && !confirmed
    {
      this.link := link;
      confirmed := false;
    }
  }

  /** The pair a registration still waits for. */
  ghost function Awaited(r: Registration): Option<Arc>
    reads r
  {
    if r.link == null || r.confirmed then None else Some(Arc(r.link.left, r.link.right))
  }

  ghost function AwaitedBy(rs: seq<Registration>): seq<Option<Arc>>
    reads rs
  {
    seq(|rs|, i requires 0 <= i < |rs| reads rs => Awaited(rs[i]))
  }

  ghost predicate Live(links: Adjacency<Link>, l: Link) {
    Arc(l.left, l.right) in Arcs(links) && At(links, Arc(l.left, l.right)) == l
  }

  /** Symmetric, one object for both directions, no empty adjacency. */
  ghost predicate Woven(links: Adjacency<Link>, owned: set<Link>) {
    && (forall k | k in Arcs(links) ::
          var l := At(links, k);
          && l in owned && k.from != k.to
          && Arc(k.to, k.from) in Arcs(links) && At(links, Arc(k.to, k.from)) == l
          && Joins(k, l))
    && NoneEmpty(links)
  }

  /** Each link counts the registrations that wait on it, and awaited links are live. */
  ghost predicate Counted(links: Adjacency<Link>, owned: set<Link>, waiting: map<Link, set<Registration>>)
    reads owned
  {
    && waiting.Keys == owned
    && (forall l | l in owned ::
          && l.generation >= 0 && l.pendingRegistrations == |waiting[l]|
          && (waiting[l] != {} ==> Live(links, l)))
  }

  /** Exactly the unconfirmed registrations of a pair wait on its link. */
  ghost predicate Unconfirmed(registrations: set<Registration>, waiting: map<Link, set<Registration>>)
    reads registrations
  {
    && (forall l, r | l in waiting && r in waiting[l] :: r in registrations && r.link == l && !r.confirmed)
    && (forall r | r in registrations && r.link != null && !r.confirmed :: r.link in waiting && r in waiting[r.link])
  }

  ghost function GraphOf(links: Adjacency<Link>, owned: set<Link>): Graph
    requires Woven(links, owned)
    reads owned
  {
    map k | k in Arcs(links) :: At(links, k).State()
  }

  /** As `Counted`, with one link's counter ahead by `d`. */
  ghost predicate CountedBut(links: Adjacency<Link>, owned: set<Link>, waiting: map<Link, set<Registration>>,
                             link: Link, d: int)
    reads owned
  {
    && waiting.Keys == owned
    && (forall l | l in owned ::
          && l.generation >= 0 && l.pendingRegistrations == |waiting[l]| + (if l == link then d else 0)
          && (waiting[l] != {} ==> Live(links, l)))
  }

  lemma OneMoreWaits(links: Adjacency<Link>, owned: set<Link>, waiting: map<Link, set<Registration>>,
                     registrations: set<Registration>, r: Registration, link: Link)
    requires CountedBut(links, owned, waiting, link, 1) && Unconfirmed(registrations, waiting)
    requires r.link == link && !r.confirmed && r !in registrations && link in owned && Live(links, link)
    ensures var w := waiting[link := waiting[link] + {r}];
      Counted(links, owned, w) && Unconfirmed(registrations + {r}, w)
  {
    hide Live;
  }

  lemma OneFewerWaits(links: Adjacency<Link>, owned: set<Link>, waiting: map<Link, set<Registration>>,
                      registrations: set<Registration>, r: Registration, link: Link)
    requires CountedBut(links, owned, waiting, link, -1) && r.confirmed
    requires link in owned && r in waiting[link] && r.link == link
    requires forall l, x | l in waiting && x in waiting[l] ::
      x in registrations && x.link == l && (x == r || !x.confirmed)
    requires forall x | x in registrations && x.link != null && !x.confirmed ::
      x.link in waiting && x in waiting[x.link]
    ensures var w := waiting[link := waiting[link] - {r}];
      Counted(links, owned, w) && Unconfirmed(registrations, w)
  {
    hide Live;
  }

  lemma NewLinkCounts(links: Adjacency<Link>, more: Adjacency<Link>, owned: set<Link>,
                      waiting: map<Link, set<Registration>>, registrations: set<Registration>, link: Link)
    requires Counted(links, owned, waiting) && Unconfirmed(registrations, waiting)
    requires link !in owned && link.generation == link.pendingRegistrations == 0
    requires forall x | x in owned && x != link :: Live(more, x) <==> Live(links, x)
    ensures Counted(more, owned + {link}, waiting[link := {}]) && Unconfirmed(registrations, waiting[link := {}])
  {
    hide Live;
  }

  lemma AwaitedIsLive(links: Adjacency<Link>, owned: set<Link>, waiting: map<Link, set<Registration>>,
                      registrations: set<Registration>, r: Registration)
    requires Counted(links, owned, waiting) && Unconfirmed(registrations, waiting)
    requires r in registrations && r.link != null && !r.confirmed
    ensures r.link in owned && Live(links, r.link) && r in waiting[r.link]
  {
  }

  lemma Overwrite(g: Graph, e: LinkState, f: LinkState)
    requires e.left == f.left && e.right == f.right
    ensures WithLink(WithLink(g, e), f) == WithLink(g, f)
  {
  }

  lemma GraphIsAnchored(links: Adjacency<Link>, owned: set<Link>, waiting: map<Link, set<Registration>>)
    requires Woven(links, owned) && Counted(links, owned, waiting)
    ensures Anchored(GraphOf(links, owned))
  {
    hide NoneEmpty, Live, At, Arcs;
  }

  lemma BothArcs(links: Adjacency<Link>, owned: set<Link>, l: Link)
    requires Woven(links, owned) && Live(links, l)
    ensures var a, b, g := Arc(l.left, l.right), Arc(l.right, l.left), GraphOf(links, owned);
      a in g && b in g && g[a] == g[b] == l.State()
  {
  }

  /** The premise of `PartitionKeepsTogether` and `SettlementKeepsTogether` holds of every tracker. */
  lemma LinksAreSymmetric(links: Adjacency<Link>, owned: set<Link>)
    requires Woven(links, owned)
    ensures Symmetric(Arcs(links))
  {
  }

  lemma GraphIsMirrored(links: Adjacency<Link>, owned: set<Link>)
    requires Woven(links, owned)
    ensures Mirrored(GraphOf(links, owned))
    ensures forall p | p in links :: exists k :: k in GraphOf(links, owned) && k.from == p
  {
    forall p | p in links
      ensures exists k :: k in GraphOf(links, owned) && k.from == p
    {
      var q :| q in links[p];
      assert Arc(p, q) in GraphOf(links, owned);
    }
  }

  lemma PathsAreBounded(links: Adjacency<Link>, owned: set<Link>)
    requires Woven(links, owned)
    ensures |links.Keys| <= 2 * |Pairs(GraphOf(links, owned))|
  {
    hide Woven, GraphOf, Mirrored;
    GraphIsMirrored(links, owned);
    PairsBoundArcs(GraphOf(links, owned), links.Keys);
  }

  lemma StartCapture(links: Adjacency<Link>, owned: set<Link>, limit: Option<nat>)
    requires Woven(links, owned)
    ensures CapturingPaths([], 0, {}, GraphOf(links, owned), limit)
  {
    hide Woven, GraphOf;
    var g := GraphOf(links, owned);
    assert ArcsFrom(g.Keys, {}) == {} && Pairs(g) * {} == {};
  }

  lemma BeginPath(links: Adjacency<Link>, owned: set<Link>, rows: seq<Snapshot>, visits: nat, done: set<string>,
                  path: string, limit: Option<nat>)
    requires Woven(links, owned) && path in links && path !in done &&
      CapturingPaths(rows, visits, done, GraphOf(links, owned), limit)
    ensures var g := GraphOf(links, owned);
      CapturingPath(rows, visits, path, links[path].Keys, ArcsFrom(g.Keys, done), g, limit)
  {
    hide Woven, GraphOf, Capturing, Fits, At;
    GraphKeys(links, owned);
    var g := GraphOf(links, owned);
    StartPath(rows, path, links[path].Keys, ArcsFrom(g.Keys, done), g, limit);
  }

  lemma EndIsLinked(links: Adjacency<Link>, owned: set<Link>, rows: seq<Snapshot>, count: nat, path: string,
                    ends: set<string>, to: string, seen: set<Arc>, limit: Option<nat>)
    requires Woven(links, owned) && to in ends &&
      CapturingPath(rows, count, path, ends, seen, GraphOf(links, owned), limit)
    ensures var k, g := Arc(path, to), GraphOf(links, owned);
      k in g && path in links && to in links[path] && g[k] == At(links, k).State() && Mirrored(g)
  {
    hide Woven, GraphOf, Capturing, Mirrored, Followed, Fits, At;
    GraphKeys(links, owned);
    GraphIsMirrored(links, owned);
  }

  lemma EndPath(rows: seq<Snapshot>, visits: nat, done: set<string>, path: string, g: Graph, limit: Option<nat>)
    requires CapturingPath(rows, visits, path, {}, ArcsFrom(g.Keys, done), g, limit)
    ensures CapturingPaths(rows, visits, done + {path}, g, limit)
  {
    hide Capturing, Fits, ArcsFrom, Followed;
    ArcsFromMore(g.Keys, done, path);
  }

  lemma AllCaptured(links: Adjacency<Link>, owned: set<Link>, rows: seq<Snapshot>, visits: nat, limit: Option<nat>)
    requires Woven(links, owned) && CapturingPaths(rows, visits, links.Keys, GraphOf(links, owned), limit)
    ensures IsCapture(rows, GraphOf(links, owned)) && !TooMany(GraphOf(links, owned), limit)
  {
    hide Woven, GraphOf, At;
    GraphKeys(links, owned);
    var g := GraphOf(links, owned);
    assert ArcsFrom(g.Keys, links.Keys) == g.Keys && Pairs(g) * g.Keys == Pairs(g);
  }

  lemma GraphKeys(links: Adjacency<Link>, owned: set<Link>)
    requires Woven(links, owned)
    ensures GraphOf(links, owned).Keys == Arcs(links)
    ensures forall k | k in Arcs(links) :: At(links, k) in owned && GraphOf(links, owned)[k] == At(links, k).State()
  {
  }

  lemma ArcIsLive(links: Adjacency<Link>, owned: set<Link>, k: Arc)
    requires Woven(links, owned) && k in Arcs(links)
    ensures Live(links, At(links, k)) && Joins(k, At(links, k)) && k.from != k.to
  {
  }

  function WithBoth(links: Adjacency<Link>, l: Link): Adjacency<Link> {
    WithArc(WithArc(links, l.left, l.right, l), l.right, l.left, l)
  }

  ghost predicate Joins(k: Arc, l: Link) {
    k == Arc(l.left, l.right) || k == Arc(l.right, l.left)
  }

  lemma BothAdded(links: Adjacency<Link>, l: Link)
    ensures var r := WithBoth(links, l);
      && (forall k :: k in Arcs(r) <==> (k in Arcs(links) || Joins(k, l)))
      && (forall k | k in Arcs(r) :: At(r, k) == if Joins(k, l) then l else At(links, k))
      && (NoneEmpty(links) ==> NoneEmpty(r))
  {
    hide WithArc, At, Arcs, NoneEmpty;
    ArcAdded(links, l.left, l.right, l);
    ArcAdded(WithArc(links, l.left, l.right, l), l.right, l.left, l);
  }

  lemma WeaveOne(links: Adjacency<Link>, owned: set<Link>, l: Link)
    requires Woven(links, owned) && l.left != l.right && Arc(l.left, l.right) !in Arcs(links)
    ensures var r := WithBoth(links, l);
      Woven(r, owned + {l}) && Live(r, l) && (forall x | x in owned && x != l :: Live(r, x) <==> Live(links, x))
  {
    hide WithBoth, At, Arcs, NoneEmpty;
    BothAdded(links, l);
    assert Arc(l.right, l.left) !in Arcs(links);
  }

  lemma GraphWithOne(links: Adjacency<Link>, owned: set<Link>, l: Link)
    requires Woven(links, owned) && Woven(WithBoth(links, l), owned + {l})
    ensures GraphOf(WithBoth(links, l), owned + {l}) == WithLink(GraphOf(links, owned), l.State())
  {
    hide WithBoth, At, Arcs, Woven;
    BothAdded(links, l);
  }

  function WithoutBoth(links: Adjacency<Link>, l: Link): Adjacency<Link> {
    WithoutArc(WithoutArc(links, l.left, l.right), l.right, l.left)
  }

  lemma BothRemoved(links: Adjacency<Link>, l: Link)
    ensures var r := WithoutBoth(links, l);
      && (forall k :: k in Arcs(r) <==> (k in Arcs(links) && !Joins(k, l)))
      && (forall k | k in Arcs(r) :: At(r, k) == At(links, k))
      && (NoneEmpty(links) ==> NoneEmpty(r))
  {
    hide WithoutArc, At, Arcs, NoneEmpty;
    ArcRemoved(links, l.left, l.right);
    ArcRemoved(WithoutArc(links, l.left, l.right), l.right, l.left);
  }

  lemma UnweaveOne(links: Adjacency<Link>, owned: set<Link>, l: Link)
    requires Woven(links, owned) && Live(links, l)
    ensures var r := WithoutBoth(links, l);
      && Woven(r, owned) && !Live(r, l) && (forall x | x in owned && x != l :: Live(r, x) <==> Live(links, x))
      && (forall k :: k in Arcs(r) <==> (k in Arcs(links) && !Joins(k, l)))
      && (forall k | k in Arcs(r) :: At(r, k) == At(links, k))
  {
    hide WithoutBoth, At, Arcs, NoneEmpty;
    BothRemoved(links, l);
  }

  lemma GraphWithoutOne(links: Adjacency<Link>, owned: set<Link>, l: Link)
    requires Woven(links, owned) && Woven(WithoutBoth(links, l), owned)
    ensures GraphOf(WithoutBoth(links, l), owned)
         == GraphOf(links, owned) - {Arc(l.left, l.right), Arc(l.right, l.left)}
  {
    hide WithoutBoth, At, Arcs, Woven;
    BothRemoved(links, l);
  }

  lemma RemovalCounts(links: Adjacency<Link>, fewer: Adjacency<Link>, owned: set<Link>,
                      waiting: map<Link, set<Registration>>, l: Link)
    requires Counted(links, owned, waiting) && l in owned && l.pendingRegistrations <= 0
    requires forall x | x in owned && x != l :: Live(fewer, x) <==> Live(links, x)
    ensures Counted(fewer, owned, waiting)
  {
    hide Live;
  }

  /** Fields of one live link changed; every other link is as in `g`. */
  lemma Relabelled(links: Adjacency<Link>, owned: set<Link>, g: Graph, l: Link)
    requires Woven(links, owned) && l in owned && Live(links, l) && g.Keys == Arcs(links)
    requires forall k | k in Arcs(links) && At(links, k) != l :: g[k] == At(links, k).State()
    ensures GraphOf(links, owned) == WithLink(g, l.State())
  {
    hide NoneEmpty, At, Arcs;
  }

  /** One settlement handed to the caller; its identity is its commit right. */
  class Settlement {
    const retained: seq<Hint>
    const acknowledged: seq<Acknowledgement>

    constructor (retained: seq<Hint>, acknowledged: seq<Acknowledgement>)
      ensures this.retained == retained && this.acknowledged == acknowledged
    {
      this.retained, this.acknowledged := retained, acknowledged;
    }
  }

  /** The watermarks of the settlements that are not committed. */
  ghost function OpenOf(settled: seq<Settlement>,
                        settlements: map<Settlement, map<string, int>>): seq<Option<map<string, int>>> {
    seq(|settled|,
      i requires 0 <= i < |settled| => if settled[i] in settlements then Some(settlements[settled[i]]) else None)
  }

  /** Later entries of a path replace earlier ones. */
  function WatermarksOf(acks: seq<Acknowledgement>): map<string, int> {
    if acks == [] then map[]
    else var last := acks[|acks| - 1]; WatermarksOf(acks[..|acks| - 1])[last.path := last.throughId]
  }

  /** The greatest acknowledged generation of each path. */
  function GreatestOf(acks: seq<Acknowledgement>): map<string, int> {
    if acks == [] then map[]
    else
      var rest, last := GreatestOf(acks[..|acks| - 1]), acks[|acks| - 1];
      rest[last.path := Max(Through(rest, last.path), last.throughId)]
  }

  /** What other work does to the tracker while a planner waits. */
  datatype Event =
    | Register(oldPath: string, newPath: string, journalId: Option<int>)
    | Confirm(registration: nat, generation: Option<int>)
    | Settle(queued: seq<Hint>, materialized: seq<FileChange>, deferred: seq<Detail>, plan: Plan)
    | CommitSettlement(settlement: nat)
    | CommitAcknowledged(acknowledged: seq<Acknowledgement>)

  datatype Turn = Turn(events: seq<Event>, abort: bool, reject: bool)

  /** A host that only lets time pass. */
  ghost predicate Calm(host: nat -> Turn) {
    forall n: nat :: host(n) == Turn([], false, false)
  }

  datatype Fault = Aborted | Rejected | Changed | Admission

  datatype Scope = Planning | Dependencies

  /** A planner that returns to the host after every `WORK_UNITS` steps. The
      host's behaviour is arbitrary; the witness was taken at the start. */
  class Cooperation {
    const host: nat -> Turn
    const scope: Scope
    const revision: Revision
    var turns: nat
    var work: nat
    var aborted: bool

    constructor (host: nat -> Turn, scope: Scope, revision: Revision, aborted: bool)
      ensures this.host == host && this.scope == scope && this.revision == revision && this.aborted == aborted
    {
      this.host, this.scope, this.revision, this.aborted := host, scope, revision, aborted;
      turns, work := 0, 0;
    }
  }

  datatype Partition = Partition(ready: seq<FileChange>, deferred: map<string, Detail>)

  /** What planning must return for a queue, given the tracker's state. */
  ghost function Partitioned(queued: seq<Hint>, changes: seq<FileChange>, records: Records, arcs: set<Arc>, plan: Plan)
    : Result<Partition, Fault>
  {
    var held := HeldBack(queued, changes, records, arcs, plan);
    if Admissible(Withheld(queued, changes, records, plan).Keys, arcs, queued)
    then Ok(Partition(Ready(changes, held), held))
    else Err(Admission)
  }

  class DeferredChangeTracker {
    const retryMs: real
    var records: Records
    var settlements: map<Settlement, map<string, int>>
    var settled: seq<Settlement>
    var legacyLinks: Adjacency<Link>
    var dependencyRevision: Revision
    var planningRevision: Revision
    var issued: seq<Registration>
    ghost var owned: set<Link>
    ghost var registrations: set<Registration>
    ghost var waiting: map<Link, set<Registration>>

    constructor (retryMs: real)
      requires retryMs > 0.0
      ensures Valid() && Tracked() == UNTRACKED && records == map[]
    {
      this.retryMs := retryMs;
      records, settlements, settled := map[], map[], [];
      legacyLinks, issued, owned, registrations, waiting := map[], [], {}, {}, map[];
      dependencyRevision := new Revision();
      planningRevision := new Revision();
    }

    ghost predicate Valid()
      reads this, owned, registrations
    {
      && Woven(legacyLinks, owned)
      && Counted(legacyLinks, owned, waiting)
      && Unconfirmed(registrations, waiting)
      && (forall i | 0 <= i < |issued| :: issued[i] in registrations)
      && (forall i, j | 0 <= i < j < |issued| :: issued[i] != issued[j])
      && (forall i, j | 0 <= i < j < |settled| :: settled[i] != settled[j])
      && Filed(records)
    }

    ghost function Links(): Graph
      requires Valid()
      reads this, owned, registrations
    {
      GraphOf(legacyLinks, owned)
    }

    /** The dependencies as a value. */
    ghost function Tracked(): Tracking
      requires Valid()
      reads this, owned, registrations
    {
      Tracking(Links(), AwaitedBy(issued), OpenOf(settled, settlements))
    }

    /** Whatever changed, the witnesses that cover it were replaced. */
    twostate predicate Witnessed()
      reads this, owned, registrations
    {
      old(Valid()) && Valid() &&
      ((fresh(dependencyRevision) && fresh(planningRevision))
       || (dependencyRevision == old(dependencyRevision) && legacyLinks == old(legacyLinks) && Links() == old(Links())
           && (fresh(planningRevision) || (planningRevision == old(planningRevision) && records == old(records)))))
    }

    /** New links and registrations are newly allocated. */
    twostate predicate Grown()
      reads this
    {
      && (forall l | l in owned :: l in old(owned) || fresh(l))
      && (forall r | r in registrations :: r in old(registrations) || fresh(r))
    }

    method ChangedPlanning()
      modifies this`planningRevision
      ensures fresh(planningRevision)
    {
      planningRevision := new Revision();
    }

    method ChangedDependencies()
      modifies this`planningRevision, this`dependencyRevision
      ensures fresh(planningRevision) && fresh(dependencyRevision)
    {
      dependencyRevision := new Revision();
      ChangedPlanning();
    }

    method AddLink(a: string, b: string) returns (link: Link)
      requires Valid() && a != b && Arc(a, b) !in Arcs(legacyLinks)
      modifies this`legacyLinks, this`planningRevision, this`dependencyRevision, this`owned, this`waiting
      ensures Valid() && fresh(link) && owned == old(owned) + {link}
      ensures fresh(planningRevision) && fresh(dependencyRevision)
      ensures Live(legacyLinks, link) && link.State() == LinkState(a, b, 0, 0, false)
      ensures Links() == WithLink(old(Links()), link.State())
    {
      hide Woven, GraphOf, WithLink, WithArc, Live, At, Arcs, NoneEmpty, Counted, Unconfirmed;
      link := new Link(a, b);
      WeaveOne(legacyLinks, owned, link);
      NewLinkCounts(legacyLinks, WithBoth(legacyLinks, link), owned, waiting, registrations, link);
      GraphWithOne(legacyLinks, owned, link);
      legacyLinks := WithArc(legacyLinks, a, b, link);
      legacyLinks := WithArc(legacyLinks, b, a, link);
      owned, waiting := owned + {link}, waiting[link := {}];
      ChangedDependencies();
    }

    /** The pair's link, created on first use and shared by both directions. */
    method LinkBetween(a: string, b: string) returns (link: Link)
      requires Valid() && a != b
      modifies this`legacyLinks, this`planningRevision, this`dependencyRevision, this`owned, this`waiting
      ensures Valid() && link in owned && Live(legacyLinks, link)
      ensures Arc(a, b) in old(Links()) ==> unchanged(this) && link.State() == Links()[Arc(a, b)]
      ensures Arc(a, b) !in old(Links()) ==>
        && fresh(planningRevision) && fresh(dependencyRevision) && fresh(link) && owned == old(owned) + {link}
        && link.State() == LinkState(a, b, 0, 0, false) && Links() == WithLink(old(Links()), link.State())
    {
      hide Woven, GraphOf, WithLink, Live, At, Arcs;
      GraphKeys(legacyLinks, owned);
      if a in legacyLinks && b in legacyLinks[a] {
        link := At(legacyLinks, Arc(a, b));
        ArcIsLive(legacyLinks, owned, Arc(a, b));
      } else {
        link := AddLink(a, b);
      }
    }

    /** A handle whose confirmation does nothing. */
    method Inert() returns (r: Registration)
      requires Valid()
      modifies this`issued, this`registrations
      ensures Valid() && fresh(r) && r.link == null && !r.confirmed
      ensures issued == old(issued) + [r] && registrations == old(registrations) + {r}
      ensures Links() == old(Links())
    {
      hide Woven, GraphOf, Counted;
      r := new Registration(null);
      issued, registrations := issued + [r], registrations + {r};
    }

    method RaiseGeneration(link: Link, n: int)
      requires Valid() && link in owned && Live(legacyLinks, link) && 0 < n
      modifies this`planningRevision, this`dependencyRevision, link`generation
      ensures Valid()
      ensures Links() == WithLink(old(Links()), old(link.State()).(generation := Max(old(link.generation), n)))
      ensures (fresh(planningRevision) && fresh(dependencyRevision)) || (unchanged(this) && unchanged(link))
    {
      hide Woven, GraphOf, WithLink, Live, At, Arcs;
      GraphKeys(legacyLinks, owned);
      var next := Max(link.generation, n);
      if next != link.generation {
        link.generation := next;
        ChangedDependencies();
      }
      Relabelled(legacyLinks, owned, old(Links()), link);
    }

    method CountUp(link: Link)
      requires Valid() && link in owned && Live(legacyLinks, link)
      modifies link`pendingRegistrations
      ensures CountedBut(legacyLinks, owned, waiting, link, 1) && link in waiting
      ensures GraphOf(legacyLinks, owned) ==
        WithLink(old(Links()), old(link.State()).(pending := old(link.pendingRegistrations) + 1))
    {
      hide Woven, GraphOf, WithLink, Live, At, Arcs, Unconfirmed;
      GraphKeys(legacyLinks, owned);
      link.pendingRegistrations := link.pendingRegistrations + 1;
      Relabelled(legacyLinks, owned, old(Links()), link);
    }

    method OpenRegistration(link: Link) returns (r: Registration)
      requires Valid() && link in owned && Live(legacyLinks, link)
      modifies this`planningRevision, this`dependencyRevision, this`issued, this`registrations, this`waiting
      modifies link`pendingRegistrations
      ensures Valid() && fresh(r) && r.link == link && !r.confirmed
      ensures issued == old(issued) + [r] && registrations == old(registrations) + {r}
      ensures fresh(planningRevision) && fresh(dependencyRevision)
      ensures Links() == WithLink(old(Links()), old(link.State()).(pending := old(link.pendingRegistrations) + 1))
    {
      hide Woven, GraphOf, WithLink, Live, At, Arcs, Unconfirmed, Counted, CountedBut;
      CountUp(link);
      ChangedDependencies();
      r := new Registration(link);
      OneMoreWaits(legacyLinks, owned, waiting, registrations, r, link);
      issued, registrations := issued + [r], registrations + {r};
      waiting := waiting[link := waiting[link] + {r}];
    }

    method RegisterLegacyRename(oldPath: string, newPath: string, journalId: Option<int>)
      returns (r: Option<Registration>)
      requires Valid()
      modifies this`legacyLinks, this`planningRevision, this`dependencyRevision, this`owned, this`issued
      modifies this`registrations, this`waiting, owned
      ensures Valid()
      ensures r.Some? <==> ValidGeneration(journalId)
      ensures r.None? ==> unchanged(this) && unchanged(old(owned))
      ensures r.Some? ==> fresh(r.value) && issued == old(issued) + [r.value] && !r.value.confirmed
      ensures r.Some? ==> (r.value.link != null <==> oldPath != newPath && journalId.None?)
      ensures r.Some? ==> Links() == Registered(old(Links()), oldPath, newPath, journalId)
      ensures r.Some? && r.value.link != null ==>
        && Arc(oldPath, newPath) in Links()
        && Arc(r.value.link.left, r.value.link.right) ==
          Arc(Links()[Arc(oldPath, newPath)].left, Links()[Arc(oldPath, newPath)].right)
      ensures Witnessed() && Grown()
    {
      hide Woven, GraphOf, Live, At, Arcs, Counted, Unconfirmed, WithLink, Mirrored, Registered;
      if !ValidGeneration(journalId) { return None; }
      RenameToItself(Links(), oldPath, journalId);
      var registration;
      if oldPath == newPath {
        registration := Inert();
      } else if journalId.Some? {
        registration := RegisterDurable(oldPath, newPath, journalId.value);
      } else {
        registration := RegisterPending(oldPath, newPath);
      }
      return Some(registration);
    }

    /** A rename that is already in the journal raises its link's generation. */
    method RegisterDurable(oldPath: string, newPath: string, n: int) returns (r: Registration)
      requires Valid() && oldPath != newPath && ValidGeneration(Some(n))
      modifies this`legacyLinks, this`planningRevision, this`dependencyRevision, this`owned, this`issued
      modifies this`registrations, this`waiting, owned
      ensures Valid() && fresh(r) && issued == old(issued) + [r] && r.link == null && !r.confirmed
      ensures Links() == Registered(old(Links()), oldPath, newPath, Some(n))
      ensures Witnessed() && Grown()
    {
      hide Woven, GraphOf, Live, At, Arcs, Counted, Unconfirmed, WithLink, Mirrored;
      GraphIsMirrored(legacyLinks, owned);
      if Arc(oldPath, newPath) in Links() { EndsOf(Links(), Arc(oldPath, newPath)); }
      var link := LinkBetween(oldPath, newPath);
      ghost var e := link.State();
      Overwrite(old(Links()), e, e.(generation := Max(e.generation, n)));
      RaiseGeneration(link, n);
      r := Inert();
    }

    /** Any other rename waits on its link until it is confirmed. */
    method RegisterPending(oldPath: string, newPath: string) returns (r: Registration)
      requires Valid() && oldPath != newPath
      modifies this`legacyLinks, this`planningRevision, this`dependencyRevision, this`owned, this`issued
      modifies this`registrations, this`waiting, owned
      ensures Valid() && fresh(r) && issued == old(issued) + [r] && r.link != null && !r.confirmed
      ensures Links() == Registered(old(Links()), oldPath, newPath, None) && Arc(oldPath, newPath) in Links()
      ensures Arc(r.link.left, r.link.right) ==
        Arc(Links()[Arc(oldPath, newPath)].left, Links()[Arc(oldPath, newPath)].right)
      ensures Witnessed() && Grown()
    {
      hide Woven, GraphOf, Live, At, Arcs, Counted, Unconfirmed, WithLink, Mirrored;
      GraphIsMirrored(legacyLinks, owned);
      if Arc(oldPath, newPath) in Links() { EndsOf(Links(), Arc(oldPath, newPath)); }
      var link := LinkBetween(oldPath, newPath);
      ghost var e := link.State();
      Overwrite(old(Links()), e, e.(pending := e.pending + 1));
      r := OpenRegistration(link);
      LinkedBetween(old(Links()), e.(pending := e.pending + 1), oldPath, newPath);
    }

    method CountDown(link: Link, generation: Option<int>)
      requires Woven(legacyLinks, owned) && Counted(legacyLinks, owned, waiting)
      requires link in owned && Live(legacyLinks, link) && ValidGeneration(generation)
      modifies link
      ensures CountedBut(legacyLinks, owned, waiting, link, -1) && link in waiting
      ensures Arc(link.left, link.right) in old(GraphOf(legacyLinks, owned))
      ensures GraphOf(legacyLinks, owned)
           == Confirmed(old(GraphOf(legacyLinks, owned)), Arc(link.left, link.right), generation)
    {
      hide Woven, GraphOf, WithLink, At, Arcs, Unconfirmed;
      GraphKeys(legacyLinks, owned);
      link.pendingRegistrations := link.pendingRegistrations - 1;
      match generation {
        case None => link.uncertain := true;
        case Some(n) => link.generation := Max(link.generation, n);
      }
      Relabelled(legacyLinks, owned, old(GraphOf(legacyLinks, owned)), link);
    }

    method Confirm(r: Registration, generation: Option<int>) returns (ok: bool)
      requires Valid() && r in registrations
      modifies this`planningRevision, this`dependencyRevision, this`waiting, owned, r`confirmed
      ensures Valid() && Witnessed()
      ensures ok <==> r.link == null || old(r.confirmed) || ValidGeneration(generation)
      ensures r.link == null || old(r.confirmed) || !ok ==> Links() == old(Links()) && r.confirmed == old(r.confirmed)
      ensures r.link != null && !old(r.confirmed) && ok ==>
        && r.confirmed && Arc(r.link.left, r.link.right) in old(Links())
        && Links() == Confirmed(old(Links()), Arc(r.link.left, r.link.right), generation)
    {
      hide Woven, GraphOf, Confirmed, Live, At, Arcs, Counted, CountedBut;
      if r.link == null || r.confirmed { return true; }
      if !ValidGeneration(generation) { return false; }
      AwaitedIsLive(legacyLinks, owned, waiting, registrations, r);
      r.confirmed := true;
      CountDown(r.link, generation);
      ChangedDependencies();
      OneFewerWaits(legacyLinks, owned, waiting, registrations, r, r.link);
      waiting := waiting[r.link := waiting[r.link] - {r}];
      return true;
    }

    method RemoveLink(link: Link)
      requires Valid() && link in owned && Live(legacyLinks, link) && link.pendingRegistrations <= 0
      modifies this`legacyLinks, this`planningRevision, this`dependencyRevision
      ensures Valid() && fresh(planningRevision) && fresh(dependencyRevision)
      ensures Links() == old(Links()) - {Arc(link.left, link.right), Arc(link.right, link.left)}
      ensures forall x | x in owned :: Live(legacyLinks, x) <==> old(Live(legacyLinks, x)) && x != link
      ensures forall k :: k in Arcs(legacyLinks) <==> k in old(Arcs(legacyLinks)) && !Joins(k, link)
      ensures forall k | k in Arcs(legacyLinks) :: At(legacyLinks, k) == old(At(legacyLinks, k))
    {
      hide Woven, GraphOf, Live, At, Arcs, Counted, Unconfirmed, WithoutArc;
      UnweaveOne(legacyLinks, owned, link);
      GraphWithoutOne(legacyLinks, owned, link);
      RemovalCounts(legacyLinks, WithoutBoth(legacyLinks, link), owned, waiting, link);
      legacyLinks := WithoutArc(legacyLinks, link.left, link.right);
      legacyLinks := WithoutArc(legacyLinks, link.right, link.left);
      ChangedDependencies();
    }

    /** The links seen so far are gone or not retirable. */
    ghost predicate Judged(visited: set<Link>, w: map<string, int>)
      reads this, owned
    {
      forall l | l in visited && l in owned && Live(legacyLinks, l) :: !Retirable(l.State(), w)
    }

    /** Removes the link at `k` if it is retirable. */
    method RetireLink(link: Link, watermarks: map<string, int>, ghost k: Arc)
      requires Valid() && k in Arcs(legacyLinks) && At(legacyLinks, k) == link
      modifies this`legacyLinks, this`planningRevision, this`dependencyRevision
      ensures Valid() && link in owned && (Live(legacyLinks, link) ==> !Retirable(link.State(), watermarks))
      ensures forall x | x in owned && Live(legacyLinks, x) :: old(Live(legacyLinks, x))
      ensures k in Links() ==> !Retirable(Links()[k], watermarks)
      ensures Pruned(old(Links()), Links(), watermarks)
      ensures (fresh(dependencyRevision) && fresh(planningRevision)) || unchanged(this)
      ensures forall x | x in old(Arcs(legacyLinks)) && x.from == k.from && x != k ::
        x in Arcs(legacyLinks) && At(legacyLinks, x) == old(At(legacyLinks, x))
    {
      hide Woven, GraphOf, Live, At, Arcs, Counted, Unconfirmed, Retirable, Pruned;
      GraphKeys(legacyLinks, owned);
      ArcIsLive(legacyLinks, owned, k);
      NothingPruned(Links(), watermarks);
      if Retirable(link.State(), watermarks) {
        BothArcs(legacyLinks, owned, link);
        DropRetirable(Links(), link.State(), watermarks);
        NoLongerWaits(link.State(), watermarks);
        RemoveLink(link);
      }
    }

    ghost predicate Remaining(path: string, ends: set<string>, related: map<string, Link>)
      reads this
    {
      forall to | to in ends ::
        && to in related && Arc(path, to) in Arcs(legacyLinks) && At(legacyLinks, Arc(path, to)) == related[to]
    }

    method VisitLink(path: string, to: string, watermarks: map<string, int>, seen: set<Link>,
                     related: map<string, Link>, ghost ends: set<string>)
      returns (visited: set<Link>)
      requires Valid() && Judged(seen, watermarks)
      requires to in ends && Remaining(path, ends, related) && Cleared(Links(), path, ends, watermarks)
      modifies this`legacyLinks, this`planningRevision, this`dependencyRevision
      ensures Valid() && Judged(visited, watermarks) && Pruned(old(Links()), Links(), watermarks)
      ensures Remaining(path, ends - {to}, related) && Cleared(Links(), path, ends - {to}, watermarks)
      ensures (fresh(dependencyRevision) && fresh(planningRevision)) || unchanged(this)
    {
      hide Woven, GraphOf, Live, At, Arcs, Counted, Unconfirmed, Retirable, Pruned;
      var link := related[to];
      visited := seen;
      GraphKeys(legacyLinks, owned);
      ArcIsLive(legacyLinks, owned, Arc(path, to));
      NothingPruned(Links(), watermarks);
      if link in visited { return; }
      visited := visited + {link};
      RetireLink(link, watermarks, Arc(path, to));
      PruneOn(old(Links()), old(Links()), Links(), watermarks);
    }

    /** Retires the links at one path. */
    method SweepPath(path: string, watermarks: map<string, int>, seen: set<Link>)
      returns (visited: set<Link>)
      requires Valid() && Judged(seen, watermarks)
      modifies this`legacyLinks, this`planningRevision, this`dependencyRevision
      ensures Valid() && Judged(visited, watermarks) && Cleared(Links(), path, {}, watermarks)
      ensures Pruned(old(Links()), Links(), watermarks) && Witnessed()
    {
      hide Woven, GraphOf, Counted, Unconfirmed, Pruned, Cleared, Judged, Remaining;
      visited := seen;
      NothingPruned(Links(), watermarks);
      var related := if path in legacyLinks then legacyLinks[path] else map[];
      var ends := related.Keys;
      RelatedRemain(path, watermarks);
      while ends != {}
        invariant Valid() && Judged(visited, watermarks) && Pruned(old(Links()), Links(), watermarks) && Witnessed()
        invariant ends <= related.Keys && Remaining(path, ends, related) && Cleared(Links(), path, ends, watermarks)
        decreases ends
      {
        var to :| to in ends;
        ghost var before := Links();
        visited := VisitLink(path, to, watermarks, visited, related, ends);
        PruneOn(old(Links()), before, Links(), watermarks);
        ends := ends - {to};
      }
    }

    lemma RelatedRemain(path: string, w: map<string, int>)
      requires Valid()
      ensures var related := if path in legacyLinks then legacyLinks[path] else map[];
        Remaining(path, related.Keys, related) && Cleared(Links(), path, related.Keys, w)
    {
      hide Woven, Counted, Unconfirmed;
    }

    method RetireAcknowledgedLinks(watermarks: map<string, int>)
      requires Valid()
      modifies this`legacyLinks, this`planningRevision, this`dependencyRevision
      ensures Valid() && Links() == Retired(old(Links()), watermarks) && Witnessed()
    {
      hide Woven, GraphOf, Live, At, Arcs, Counted, Unconfirmed, Retirable, Anchored;
      var paths := watermarks.Keys;
      var visited: set<Link> := {};
      ghost var done: set<string> := {};
      while paths != {}
        invariant Valid() && Judged(visited, watermarks)
        invariant done + paths == watermarks.Keys && Swept(Links(), done, watermarks)
        invariant Pruned(old(Links()), Links(), watermarks) && Witnessed()
        decreases |paths|
      {
        var path :| path in paths;
        ghost var before := Links();
        visited := SweepPath(path, watermarks, visited);
        PruneOn(old(Links()), before, Links(), watermarks);
        paths, done := paths - {path}, done + {path};
      }
      assert done == watermarks.Keys;
      GraphIsAnchored(legacyLinks, owned, waiting);
      SweepIsComplete(old(Links()), Links(), watermarks);
    }

    // ------------------------------------------------- other work on the tracker

    method CommitAcknowledged(acks: seq<Acknowledgement>) returns (ok: bool)
      requires Valid()
      modifies this`legacyLinks, this`planningRevision, this`dependencyRevision
      ensures Valid() && Witnessed()
      ensures ok <==> Acceptable(acks)
      ensures Links() == if ok then Retired(old(Links()), GreatestOf(acks)) else old(Links())
    {
      hide Woven, GraphOf, Counted, Unconfirmed, Retired, Filed;
      var watermarks: map<string, int> := map[];
      for i := 0 to |acks|
        invariant forall j | 0 <= j < i :: 0 < acks[j].throughId <= MAX_SAFE_INTEGER
        invariant watermarks == GreatestOf(acks[..i])
        invariant unchanged(this)
      {
        if acks[i].throughId <= 0 || acks[i].throughId > MAX_SAFE_INTEGER { return false; }
        assert acks[..i + 1][..i] == acks[..i];
        watermarks := watermarks[acks[i].path := Max(Through(watermarks, acks[i].path), acks[i].throughId)];
      }
      assert acks[..|acks|] == acks;
      RetireAcknowledgedLinks(watermarks);
      ok := true;
    }

    /** Only an uncommitted settlement retires links, and only once. */
    method CommitSettlement(settlement: Settlement)
      requires Valid()
      modifies this`legacyLinks, this`planningRevision, this`dependencyRevision, this`settlements
      ensures Valid() && Witnessed() && settlements == old(settlements) - {settlement}
      ensures Links() == if settlement in old(settlements) then Retired(old(Links()), old(settlements)[settlement])
                         else old(Links())
    {
      hide Woven, GraphOf, Counted, Unconfirmed, Retired, Filed;
      if settlement !in settlements { return; }
      var watermarks := settlements[settlement];
      settlements := settlements - {settlement};
      RetireAcknowledgedLinks(watermarks);
    }

    // ------------------------------------------------------ waiting for the host

    function Witness(scope: Scope): Revision
      reads this
    {
      if scope.Planning? then planningRevision else dependencyRevision
    }

    ghost predicate Current(run: Cooperation?)
      reads this, run
    {
      run != null ==> !run.aborted && Witness(run.scope) == run.revision
    }

    /** What may change while a planner runs: nothing if it never waits. */
    ghost function Footprint(run: Cooperation?): set<object>
      reads this
    {
      if run == null then {} else {this, run} + owned + registrations
    }

    /** Everything that a planner of this scope reads is as it was. */
    twostate predicate Undisturbed(run: Cooperation?)
      reads this, owned, registrations, run
    {
      && Valid() && Current(run) && Grown() && legacyLinks == old(legacyLinks)
      && (run == null || run.scope.Planning? ==> records == old(records))
    }

    method ApplyRegister(a: string, b: string, id: Option<int>)
      requires Valid()
      modifies this, owned, registrations
      ensures Valid() && Witnessed() && Grown() && Tracked() == AfterRegister(old(Tracked()), a, b, id)
    {
      hide Woven, GraphOf, Counted, Unconfirmed, Filed, Registered;
      var r := RegisterLegacyRename(a, b, id);
      assert r.Some? ==> AwaitedBy(issued) == old(AwaitedBy(issued)) + [Awaited(r.value)];
    }

    method ApplyConfirm(i: nat, generation: Option<int>)
      requires Valid()
      modifies this, owned, registrations
      ensures Valid() && Witnessed() && Grown() && Tracked() == AfterConfirm(old(Tracked()), i, generation)
    {
      hide Woven, GraphOf, Counted, Unconfirmed, Filed, Confirmed, ValidGeneration;
      if i < |issued| {
        var r := issued[i];
        var ok := Confirm(r, generation);
        assert old(Awaited(r)).Some? && ok ==> AwaitedBy(issued) == old(AwaitedBy(issued))[i := None];
        assert old(Awaited(r)).None? || !ok ==> AwaitedBy(issued) == old(AwaitedBy(issued));
      }
    }

    method ApplySettle(queued: seq<Hint>, materialized: seq<FileChange>, deferred: seq<Detail>, plan: Plan)
      requires Valid()
      modifies this, owned, registrations
      ensures Valid() && Witnessed() && Grown() && Tracked() == AfterSettle(old(Tracked()), queued, deferred)
      decreases false, 9
    {
      hide Woven, GraphOf, Counted, Unconfirmed, Filed, WatermarksOf, Settleable, Closure, HeldOf, Acknowledged,
           Retained, Settled;
      GraphKeys(legacyLinks, owned);
      var r := SettleQueue(queued, materialized, deferred, plan);
      assert AwaitedBy(issued) == old(AwaitedBy(issued));
      assert r.Some? ==>
        OpenOf(settled, settlements) == old(OpenOf(settled, settlements)) + [Some(settlements[r.value])];
    }

    method ApplyCommit(i: nat)
      requires Valid()
      modifies this, owned, registrations
      ensures Valid() && Witnessed() && Grown() && Tracked() == AfterCommit(old(Tracked()), i)
    {
      hide Woven, GraphOf, Counted, Unconfirmed, Filed, Retired;
      if i < |settled| {
        ghost var before := OpenOf(settled, settlements);
        CommitSettlement(settled[i]);
        assert AwaitedBy(issued) == old(AwaitedBy(issued));
        assert OpenOf(settled, settlements) == before[i := None];
        assert before[i].None? ==> before[i := None] == before;
      }
    }

    method ApplyAcks(acks: seq<Acknowledgement>)
      requires Valid()
      modifies this, owned, registrations
      ensures Valid() && Witnessed() && Grown() && Tracked() == AfterAcks(old(Tracked()), acks)
    {
      hide Woven, GraphOf, Counted, Unconfirmed, Filed, Retired, GreatestOf;
      var ok := CommitAcknowledged(acks);
      assert AwaitedBy(issued) == old(AwaitedBy(issued));
    }

    method Apply(e: Event)
      requires Valid()
      modifies this, owned, registrations
      ensures Valid() && Witnessed() && Grown() && Tracked() == Stepped(old(Tracked()), e)
      decreases false, 10
    {
      hide Woven, GraphOf, Counted, Unconfirmed, Filed, AfterRegister, AfterConfirm, AfterSettle, AfterCommit,
           AfterAcks;
      match e {
        case Register(a, b, id) => ApplyRegister(a, b, id);
        case Confirm(i, generation) => ApplyConfirm(i, generation);
        case Settle(queued, materialized, deferred, plan) => ApplySettle(queued, materialized, deferred, plan);
        case CommitSettlement(i) => ApplyCommit(i);
        case CommitAcknowledged(acks) => ApplyAcks(acks);
      }
    }

    /** The end of one elementary step; `None` lets the planner go on. */
    method Yield(run: Cooperation?) returns (fault: Option<Fault>)
      requires Valid() && Current(run)
      modifies Footprint(run)
      ensures Valid()
      ensures fault.None? ==> Undisturbed(run) && Links() == old(Links())
      ensures fault.Some? ==> run != null && !Calm(run.host) && fault.value != Admission
      decreases run != null, 0
    {
      hide Woven, GraphOf, Counted, Unconfirmed, Filed;
      if run == null { return None; }
      run.work := run.work + 1;
      if run.work < WORK_UNITS { return None; }
      var turn := run.host(run.turns);
      run.turns := run.turns + 1;
      for i := 0 to |turn.events|
        invariant Valid() && Witnessed() && Grown() && !run.aborted
        invariant i == 0 ==> Witness(run.scope) == run.revision
      {
        Apply(turn.events[i]);
      }
      run.aborted := turn.abort;
      if turn.reject { return Some(Rejected); }
      if run.aborted { return Some(Aborted); }
      if Witness(run.scope) != run.revision { return Some(Changed); }
      run.work := 0;
      fault := None;
    }

    // ----------------------------------------------------------------- settlement

    /** Files or drops one row's record; the witness changes before any record does. */
    method SettleRow(hint: Hint, held: map<string, Detail>, current: map<string, FileChange>, plan: Plan)
      requires Filed(records) && Keyed(held, current)
      modifies this`records, this`planningRevision
      ensures Filed(records)
      ensures records == Settled(old(records), [hint], held, current, plan, retryMs)
      ensures fresh(planningRevision) || (planningRevision == old(planningRevision) && records == old(records))
    {
      assert Settled(records, [hint][..0], held, current, plan, retryMs) == records;
      if hint.path !in held {
        if hint.path in records {
          ChangedPlanning();
          records := records - {hint.path};
        } else {
          assert records - {hint.path} == records;
        }
        return;
      }
      SameMeansEqual(records, hint, held, current, plan, retryMs);
      var record := RecordFor(Refreshed(hint, current), held[hint.path], records, plan, retryMs);
      if hint.path !in records || !SameRecord(records[hint.path], record) {
        ChangedPlanning();
        records := records[hint.path := record];
      }
    }

    method SettleRows(queued: seq<Hint>, held: map<string, Detail>, current: map<string, FileChange>, plan: Plan)
      returns (retained: seq<Hint>, acknowledged: seq<Acknowledgement>)
      requires Filed(records) && Keyed(held, current)
      modifies this`records, this`planningRevision
      ensures Filed(records) && records == Settled(old(records), queued, held, current, plan, retryMs)
      ensures retained == Retained(queued, held, current) && acknowledged == Acknowledged(queued, held)
      ensures fresh(planningRevision) || (planningRevision == old(planningRevision) && records == old(records))
    {
      hide Filed, Keyed, RecordFor, SameHint;
      retained, acknowledged := [], [];
      for i := 0 to |queued|
        invariant Filed(records) && records == Settled(old(records), queued[..i], held, current, plan, retryMs)
        invariant retained == Retained(queued[..i], held, current) && acknowledged == Acknowledged(queued[..i], held)
        invariant fresh(planningRevision) || (planningRevision == old(planningRevision) && records == old(records))
      {
        var hint := queued[i];
        assert queued[..i + 1][..i] == queued[..i];
        SettledOnce(old(records), queued[..i], hint, held, current, plan, retryMs);
        SettleRow(hint, held, current, plan);
        if hint.path in held {
          retained := retained + [Refreshed(hint, current)];
        } else if hint.journalId.Some? {
          acknowledged := acknowledged + [Acknowledgement(hint.path, hint.journalId.value)];
        }
      }
      assert queued[..|queued|] == queued;
    }

    static method ReadDetails(deferred: seq<Detail>, hints: map<string, Hint>) returns (r: Option<map<string, Detail>>)
      ensures r.Some? <==> forall i | 0 <= i < |deferred| :: ValidDetail(deferred[i], hints)
      ensures r.Some? ==> r.value == HeldOf(deferred)
    {
      var held: map<string, Detail> := map[];
      for i := 0 to |deferred|
        invariant held == HeldOf(deferred[..i]) && forall j | 0 <= j < i :: ValidDetail(deferred[j], hints)
      {
        if !ValidDetail(deferred[i], hints) { return None; }
        assert deferred[..i + 1][..i] == deferred[..i];
        held := held[deferred[i].path := deferred[i]];
      }
      assert deferred[..|deferred|] == deferred;
      return Some(held);
    }

    static method ReadCurrent(changes: seq<FileChange>) returns (current: map<string, FileChange>)
      ensures current == CurrentOf(changes)
    {
      current := map[];
      for i := 0 to |changes|
        invariant current == CurrentOf(changes[..i])
      {
        assert changes[..i + 1][..i] == changes[..i];
        current := current[changes[i].path := changes[i]];
      }
      assert changes[..|changes|] == changes;
    }

    /** The closure of a push's withheld rows; malformed rows are refused. */
    method CloseDeferred(queued: seq<Hint>, deferred: seq<Detail>) returns (r: Option<map<string, Detail>>)
      requires Valid()
      ensures r.Some? <==> forall i | 0 <= i < |deferred| :: ValidDetail(deferred[i], HintsOf(queued))
      ensures r.Some? ==> r.value == Closure(HeldOf(deferred), Arcs(legacyLinks), queued)
      decreases false, 7
    {
      hide Woven, GraphOf, Counted, Unconfirmed, Filed, HintsOf, HeldOf, Closure, Arcs, ValidDetail, Admissible;
      var hints := BuildHints(null, queued);
      var held := ReadDetails(deferred, hints.value);
      if held.None? { return None; }
      var closed := IncludeLinked(null, queued, hints.value, held.value, false);
      return Some(closed.value);
    }

    method IssueSettlement(retained: seq<Hint>, acknowledged: seq<Acknowledgement>) returns (r: Settlement)
      modifies this`settlements, this`settled
      ensures fresh(r) && r.retained == retained && r.acknowledged == acknowledged
      ensures settlements == old(settlements)[r := WatermarksOf(acknowledged)] && settled == old(settled) + [r]
    {
      r := new Settlement(retained, acknowledged);
      var watermarks := ReadWatermarks(acknowledged);
      settlements, settled := settlements[r := watermarks], settled + [r];
    }

    /** `settle`: the rows to restore and those to acknowledge, with their records. */
    method SettleQueue(queued: seq<Hint>, materialized: seq<FileChange>, deferred: seq<Detail>, plan: Plan)
      returns (r: Option<Settlement>)
      requires Valid()
      modifies this`records, this`planningRevision, this`settlements, this`settled
      ensures Valid() && Witnessed()
      ensures r.Some? <==> Settleable(queued, deferred)
      ensures r.None? ==> unchanged(this)
      ensures r.Some? ==>
        var held, current := Closure(HeldOf(deferred), Arcs(legacyLinks), queued), CurrentOf(materialized);
        && fresh(r.value) && r.value.retained == Retained(queued, held, current)
        && r.value.acknowledged == Acknowledged(queued, held)
        && records == Settled(old(records), queued, held, current, plan, retryMs)
        && settlements == old(settlements)[r.value := WatermarksOf(r.value.acknowledged)]
        && settled == old(settled) + [r.value]
      decreases false, 8
    {
      hide Woven, GraphOf, Counted, Unconfirmed, Filed, HintsOf, HeldOf, CurrentOf, Closure, Arcs, Retained,
           Acknowledged, Settled, WatermarksOf, ValidDetail, Keyed;
      var held := CloseDeferred(queued, deferred);
      if held.None? { return None; }
      var current := ReadCurrent(materialized);
      SettlementIsKeyed(deferred, Arcs(legacyLinks), queued, materialized);
      var retained, acknowledged := SettleRows(queued, held.value, current, plan);
      var settlement := IssueSettlement(retained, acknowledged);
      return Some(settlement);
    }

    static method ReadWatermarks(acks: seq<Acknowledgement>) returns (watermarks: map<string, int>)
      ensures watermarks == WatermarksOf(acks)
    {
      watermarks := map[];
      for i := 0 to |acks|
        invariant watermarks == WatermarksOf(acks[..i])
      {
        assert acks[..i + 1][..i] == acks[..i];
        watermarks := watermarks[acks[i].path := acks[i].throughId];
      }
      assert acks[..|acks|] == acks;
    }

    // -------------------------------------------------- the closure, cooperatively

    method GroupById(run: Cooperation?, queued: seq<Hint>) returns (r: Result<map<int, seq<string>>, Fault>)
      requires Valid() && Current(run)
      modifies Footprint(run)
      ensures Valid()
      ensures r.Ok? ==> Undisturbed(run) && r.value == ById(queued)
      ensures r.Err? ==> run != null && !Calm(run.host) && r.error != Admission
      decreases run != null, 1
    {
      hide Woven, GraphOf, Counted, Unconfirmed, Filed;
      var byId: map<int, seq<string>> := map[];
      for i := 0 to |queued|
        invariant Undisturbed(run) && byId == ById(queued[..i])
      {
        assert queued[..i + 1][..i] == queued[..i];
        var change := queued[i];
        if change.journalId.Some? {
          var id := change.journalId.value;
          byId := byId[id := (if id in byId then byId[id] else []) + [change.path]];
        }
        var fault := Yield(run);
        if fault.Some? { return Err(fault.value); }
      }
      assert queued[..|queued|] == queued;
      return Ok(byId);
    }

    /** The withheld paths start the worklist. */
    method SeedFrontier(run: Cooperation?, held: map<string, Detail>, enforce: bool, ghost arcs: set<Arc>,
                        ghost queued: seq<Hint>)
      returns (r: Result<Frontier, Fault>)
      requires Valid() && Current(run)
      modifies Footprint(run)
      ensures Valid()
      ensures r.Ok? ==> Undisturbed(run) && Sound(r.value, held, arcs, queued) && Within(r.value, 0, enforce)
      ensures r.Err? && r.error != Admission ==> run != null && !Calm(run.host)
      ensures r == Err(Admission) ==>
        Undisturbed(run) && enforce && |Reached(arcs, queued, held.Keys)| > MAX_VISITED_PATHS
      decreases run != null, 1
    {
      hide Woven, GraphOf, Counted, Unconfirmed, Filed, Reached, Sound, Seeded;
      ManySeeds(held, arcs, queued);
      NothingSeeded(held);
      var f, remain := Frontier([], {}, held), held.Keys;
      while remain != {}
        invariant Undisturbed(run) && Seeded(f, held, remain) && Within(f, 0, enforce)
        decreases remain
      {
        var ok;
        ok, f, remain := Seed(f, remain, enforce, held);
        if !ok { return Err(Admission); }
        var fault := Yield(run);
        if fault.Some? { return Err(fault.value); }
      }
      SeededIsSound(f, held, arcs, queued);
      return Ok(f);
    }

    /** Follows every link of one path, one edge visit each. */
    method FollowLinks(run: Cooperation?, x: Exploration, index: nat, hints: map<string, Hint>, enforce: bool,
                       ghost held: map<string, Detail>, ghost arcs: set<Arc>, ghost queued: seq<Hint>)
      returns (r: Result<Exploration, Fault>)
      requires Valid() && Current(run) && arcs == Arcs(legacyLinks) && hints == HintsOf(queued)
      requires Exploring(x, index, held, arcs, queued) && index < |x.f.visit| && Within(x.f, x.visits, enforce)
      modifies Footprint(run)
      ensures Valid()
      ensures r.Ok? ==>
        && Undisturbed(run) && r.value.byId == x.byId
        && Following(x.f.visit, r.value.f, r.value.visits, x.f.visit[index], {}, ArcsFrom(arcs, First(x.f, index)),
          held, arcs, queued)
        && Within(r.value.f, r.value.visits, enforce)
      ensures r.Err? && r.error != Admission ==> run != null && !Calm(run.host)
      ensures r == Err(Admission) ==> Undisturbed(run) && enforce && !Admissible(held.Keys, arcs, queued)
      decreases run != null, 1
    {
      hide Woven, GraphOf, Counted, Unconfirmed, Filed, Exploring, Following, Within, Admissible, ArcsFrom, First,
           HintsOf;
      var path, f, visits := x.f.visit[index], x.f, x.visits;
      var ends := if path in legacyLinks then legacyLinks[path].Keys else {};
      ghost var seen := ArcsFrom(arcs, First(x.f, index));
      StartFollowing(x, index, ends, held, arcs, queued);
      while ends != {}
        invariant Undisturbed(run) && Within(f, visits, enforce)
        invariant Following(x.f.visit, f, visits, path, ends, seen, held, arcs, queued)
        decreases ends
      {
        var ok;
        ok, f, ends := FollowArc(f, visits, path, ends, hints, enforce, x.f.visit, seen, held, arcs, queued);
        if !ok { return Err(Admission); }
        visits := visits + 1;
        var fault := Yield(run);
        if fault.Some? { return Err(fault.value); }
      }
      return Ok(Exploration(f, x.byId, visits));
    }

    /** Includes every peer of one generation. */
    method FollowPeers(run: Cooperation?, f: Frontier, visits: nat, peers: seq<string>, hints: map<string, Hint>,
                       enforce: bool, ghost held: map<string, Detail>, ghost arcs: set<Arc>, ghost queued: seq<Hint>)
      returns (r: Result<Frontier, Fault>)
      requires Valid() && Current(run) && hints == HintsOf(queued)
      requires Sound(f, held, arcs, queued) && Within(f, visits, enforce)
      requires forall q | q in peers :: q in Reached(arcs, queued, held.Keys)
      modifies Footprint(run)
      ensures Valid()
      ensures r.Ok? ==>
        && Undisturbed(run) && Sound(r.value, held, arcs, queued) && f.visit <= r.value.visit
        && f.visited <= r.value.visited && (forall q | q in peers :: q in r.value.visited)
        && Within(r.value, visits, enforce)
      ensures r.Err? && r.error != Admission ==> run != null && !Calm(run.host)
      ensures r == Err(Admission) ==> Undisturbed(run) && enforce && !Admissible(held.Keys, arcs, queued)
      decreases run != null, 1
    {
      hide Woven, GraphOf, Counted, Unconfirmed, Filed, Sound, ArcsFrom, Reached, HintsOf;
      var g := f;
      for i := 0 to |peers|
        invariant Undisturbed(run) && Sound(g, held, arcs, queued) && f.visit <= g.visit && Within(g, visits, enforce)
        invariant f.visited <= g.visited && forall j | 0 <= j < i :: peers[j] in g.visited
      {
        var ok;
        ok, g := Include(g, peers[i], hints, enforce, held, arcs, queued);
        if !ok { return Err(Admission); }
        var fault := Yield(run);
        if fault.Some? { return Err(fault.value); }
      }
      return Ok(g);
    }

    /** Expands one path: its links, then the generation group it belongs to. */
    method ExpandOne(run: Cooperation?, x: Exploration, index: nat, hints: map<string, Hint>, enforce: bool,
                     ghost held: map<string, Detail>, ghost arcs: set<Arc>, ghost queued: seq<Hint>)
      returns (r: Result<Exploration, Fault>)
      requires Valid() && Current(run) && arcs == Arcs(legacyLinks) && hints == HintsOf(queued)
      requires Exploring(x, index, held, arcs, queued) && index < |x.f.visit| && Within(x.f, x.visits, enforce)
      modifies Footprint(run)
      ensures Valid()
      ensures r.Ok? ==>
        Undisturbed(run) && Exploring(r.value, index + 1, held, arcs, queued) &&
        Within(r.value.f, r.value.visits, enforce)
      ensures r.Err? && r.error != Admission ==> run != null && !Calm(run.host)
      ensures r == Err(Admission) ==> Undisturbed(run) && enforce && !Admissible(held.Keys, arcs, queued)
      decreases run != null, 2
    {
      hide Woven, GraphOf, Counted, Unconfirmed, Filed, Exploring, Following, Within, Admissible, ArcsFrom, First,
           HintsOf, Grouped, Sound, ById;
      var fault := Yield(run);
      if fault.Some? { return Err(fault.value); }
      var linked := FollowLinks(run, x, index, hints, enforce, held, arcs, queued);
      if linked.Err? { return linked; }
      var y := linked.value;
      var path := x.f.visit[index];
      var id := if path in hints then hints[path].journalId else None;
      var peers := if id.Some? && id.value in y.byId then y.byId[id.value] else [];
      var byId := if id.Some? then y.byId - {id.value} else y.byId;
      GroupIsReached(x, index, y, peers, held, arcs, queued);
      var included := FollowPeers(run, y.f, y.visits, peers, hints, enforce, held, arcs, queued);
      if included.Err? { return Err(included.error); }
      var z := Exploration(included.value, byId, y.visits);
      GroupDone(x, index, y, z, held, arcs, queued);
      Advance(x, index, z, held, arcs, queued);
      return Ok(z);
    }

    /** The closure of the withheld paths, or a refusal exactly when it is too large. */
    method IncludeLinked(run: Cooperation?, queued: seq<Hint>, hints: map<string, Hint>, held: map<string, Detail>,
                         enforce: bool)
      returns (r: Result<map<string, Detail>, Fault>)
      requires Valid() && Current(run) && hints == HintsOf(queued)
      modifies Footprint(run)
      ensures Valid()
      ensures r.Ok? ==>
        && Undisturbed(run) && r.value == Closure(held, Arcs(legacyLinks), queued)
        && (enforce ==> Admissible(held.Keys, Arcs(legacyLinks), queued))
      ensures r.Err? && r.error != Admission ==> run != null && !Calm(run.host)
      ensures r == Err(Admission) ==> Undisturbed(run) && enforce && !Admissible(held.Keys, Arcs(legacyLinks), queued)
      decreases run != null, 3
    {
      hide Woven, GraphOf, Counted, Unconfirmed, Filed, Exploring, Sound, ById, Reached, Closure, ArcsFrom, Within;
      ghost var arcs := Arcs(legacyLinks);
      var groups := GroupById(run, queued);
      if groups.Err? { return Err(groups.error); }
      var seeded := SeedFrontier(run, held, enforce, arcs, queued);
      if seeded.Err? { return Err(seeded.error); }
      StartExploring(seeded.value, held, arcs, queued);
      var x, index := Exploration(seeded.value, groups.value, 0), 0;
      WorklistFits(x, index, held, arcs, queued);
      while index < |x.f.visit|
        invariant Undisturbed(run) && Exploring(x, index, held, arcs, queued) && Within(x.f, x.visits, enforce)
        invariant index <= |x.f.visit| <= |Reached(arcs, queued, held.Keys)|
        decreases |Reached(arcs, queued, held.Keys)| - index
      {
        var expanded := ExpandOne(run, x, index, hints, enforce, held, arcs, queued);
        if expanded.Err? { return Err(expanded.error); }
        x, index := expanded.value, index + 1;
        WorklistFits(x, index, held, arcs, queued);
      }
      ExplorationEnds(x, enforce, held, arcs, queued);
      return Ok(x.f.held);
    }

    // ------------------------------------------------------------------ partition

    method BuildHints(run: Cooperation?, queued: seq<Hint>) returns (r: Result<map<string, Hint>, Fault>)
      requires Valid() && Current(run)
      modifies Footprint(run)
      ensures Valid()
      ensures r.Ok? ==> Undisturbed(run) && r.value == HintsOf(queued)
      ensures r.Err? ==> run != null && !Calm(run.host) && r.error != Admission
      decreases run != null, 1
    {
      hide Woven, GraphOf, Counted, Unconfirmed, Filed;
      var hints: map<string, Hint> := map[];
      for i := 0 to |queued|
        invariant Undisturbed(run) && hints == HintsOf(queued[..i])
      {
        assert queued[..i + 1][..i] == queued[..i];
        hints := hints[queued[i].path := queued[i]];
        var fault := Yield(run);
        if fault.Some? { return Err(fault.value); }
      }
      assert queued[..|queued|] == queued;
      return Ok(hints);
    }

    method CollectCooling(run: Cooperation?, changes: seq<FileChange>, hints: map<string, Hint>, plan: Plan)
      returns (r: Result<map<string, Detail>, Fault>)
      requires Valid() && Current(run) && (run == null || run.scope.Planning?)
      modifies Footprint(run)
      ensures Valid()
      ensures r.Ok? ==> Undisturbed(run) && r.value == CoolingHeld(changes, records, hints, plan)
      ensures r.Err? ==> run != null && !Calm(run.host) && r.error != Admission
      decreases run != null, 1
    {
      hide Woven, GraphOf, Counted, Unconfirmed, Filed;
      var held: map<string, Detail> := map[];
      for i := 0 to |changes|
        invariant Undisturbed(run) && held == CoolingHeld(changes[..i], records, hints, plan)
      {
        assert changes[..i + 1][..i] == changes[..i];
        if Cooling(changes[i], records, hints, plan) {
          held := held[changes[i].path := records[changes[i].path].detail];
        }
        var fault := Yield(run);
        if fault.Some? { return Err(fault.value); }
      }
      assert changes[..|changes|] == changes;
      return Ok(held);
    }

    method CollectDependents(run: Cooperation?, cooling: map<string, Detail>, changes: seq<FileChange>)
      returns (r: Result<map<string, Detail>, Fault>)
      requires Valid() && Current(run) && (run == null || run.scope.Planning?)
      modifies Footprint(run)
      ensures Valid()
      ensures r.Ok? ==> Undisturbed(run) && r.value == WithDependents(cooling, changes, records)
      ensures r.Err? ==> run != null && !Calm(run.host) && r.error != Admission
      decreases run != null, 1
    {
      hide Woven, GraphOf, Counted, Unconfirmed, Filed;
      var held := cooling;
      for i := 0 to |changes|
        invariant Undisturbed(run) && held == WithDependents(cooling, changes[..i], records)
      {
        assert changes[..i + 1][..i] == changes[..i];
        if Depends(changes[i], records) {
          held := held[changes[i].path := Dependent(changes[i].path)];
        }
        var fault := Yield(run);
        if fault.Some? { return Err(fault.value); }
      }
      assert changes[..|changes|] == changes;
      return Ok(held);
    }

    method SelectReady(run: Cooperation?, changes: seq<FileChange>, held: map<string, Detail>)
      returns (r: Result<seq<FileChange>, Fault>)
      requires Valid() && Current(run)
      modifies Footprint(run)
      ensures Valid()
      ensures r.Ok? ==> Undisturbed(run) && r.value == Ready(changes, held)
      ensures r.Err? ==> run != null && !Calm(run.host) && r.error != Admission
      decreases run != null, 1
    {
      hide Woven, GraphOf, Counted, Unconfirmed, Filed;
      var ready: seq<FileChange> := [];
      for i := 0 to |changes|
        invariant Undisturbed(run) && ready == Ready(changes[..i], held)
      {
        assert changes[..i + 1][..i] == changes[..i];
        if changes[i].path !in held { ready := ready + [changes[i]]; }
        var fault := Yield(run);
        if fault.Some? { return Err(fault.value); }
      }
      assert changes[..|changes|] == changes;
      return Ok(ready);
    }

    method ListDeferred(run: Cooperation?, held: map<string, Detail>) returns (r: Result<map<string, Detail>, Fault>)
      requires Valid() && Current(run)
      modifies Footprint(run)
      ensures Valid()
      ensures r.Ok? ==> Undisturbed(run) && r.value == held
      ensures r.Err? ==> run != null && !Calm(run.host) && r.error != Admission
      decreases run != null, 1
    {
      hide Woven, GraphOf, Counted, Unconfirmed, Filed;
      var paths, deferred := held.Keys, map[];
      while paths != {}
        invariant Undisturbed(run) && paths <= held.Keys && deferred == held - paths
        decreases paths
      {
        var path :| path in paths;
        deferred := deferred[path := held[path]];
        paths := paths - {path};
        var fault := Yield(run);
        if fault.Some? { return Err(fault.value); }
      }
      return Ok(deferred);
    }

    /** The paths withheld before closing. */
    method Withhold(run: Cooperation?, changes: seq<FileChange>, hints: map<string, Hint>, plan: Plan)
      returns (r: Result<map<string, Detail>, Fault>)
      requires Valid() && Current(run) && (run == null || run.scope.Planning?)
      modifies Footprint(run)
      ensures Valid()
      ensures r.Ok? ==> Undisturbed(run) && r.value == WithheldFrom(hints, changes, records, plan)
      ensures r.Err? ==> run != null && !Calm(run.host) && r.error != Admission
      decreases run != null, 2
    {
      hide Woven, GraphOf, Counted, Unconfirmed, Filed, CoolingHeld, WithDependents;
      if plan.force { return Ok(map[]); }
      var cooling := CollectCooling(run, changes, hints, plan);
      if cooling.Err? || |cooling.value| == 0 { return cooling; }
      r := CollectDependents(run, cooling.value, changes);
    }

    /** The withheld paths and their closure. */
    method HoldBack(run: Cooperation?, queued: seq<Hint>, changes: seq<FileChange>, plan: Plan)
      returns (r: Result<map<string, Detail>, Fault>)
      requires Valid() && Current(run) && (run == null || run.scope.Planning?)
      modifies Footprint(run)
      ensures Valid()
      ensures r.Ok? ==>
        && Undisturbed(run) && r.value == HeldBack(queued, changes, records, Arcs(legacyLinks), plan)
        && Admissible(Withheld(queued, changes, records, plan).Keys, Arcs(legacyLinks), queued)
      ensures r.Err? && r.error != Admission ==> run != null && !Calm(run.host)
      ensures r == Err(Admission) ==>
        Undisturbed(run) && !Admissible(Withheld(queued, changes, records, plan).Keys, Arcs(legacyLinks), queued)
      decreases run != null, 4
    {
      hide Woven, GraphOf, Counted, Unconfirmed, Filed, HintsOf, WithheldFrom, Closure, Admissible, Arcs;
      var built := BuildHints(run, queued);
      if built.Err? { return Err(built.error); }
      var withheld := Withhold(run, changes, built.value, plan);
      if withheld.Err? { return withheld; }
      if |withheld.value| == 0 {
        NothingHeld(Arcs(legacyLinks), queued);
        return Ok(map[]);
      }
      r := IncludeLinked(run, queued, built.value, withheld.value, true);
    }

    /** Both the synchronous and the cooperative partition. */
    method PartitionSteps(run: Cooperation?, queued: seq<Hint>, changes: seq<FileChange>, plan: Plan)
      returns (r: Result<Partition, Fault>)
      requires Valid() && Current(run) && (run == null || run.scope.Planning?)
      modifies Footprint(run)
      ensures Valid()
      ensures r.Ok? ==> Undisturbed(run)
      ensures r.Ok? || r.error == Admission ==>
        r == Partitioned(queued, changes, old(records), Arcs(old(legacyLinks)), plan)
      ensures r.Err? && r.error != Admission ==> run != null && !Calm(run.host)
      decreases run != null, 5
    {
      hide Woven, GraphOf, Counted, Unconfirmed, Filed, HeldBack, Withheld, Admissible, Ready;
      var held := HoldBack(run, queued, changes, plan);
      if held.Err? { return Err(held.error); }
      var ready := SelectReady(run, changes, held.value);
      if ready.Err? { return Err(ready.error); }
      var deferred := ListDeferred(run, held.value);
      if deferred.Err? { return Err(deferred.error); }
      return Ok(Partition(ready.value, deferred.value));
    }

    /** `partition`: the policy run to its end without returning to the host. */
    method PartitionNow(queued: seq<Hint>, changes: seq<FileChange>, plan: Plan) returns (r: Result<Partition, Fault>)
      requires Valid()
      ensures r == Partitioned(queued, changes, records, Arcs(legacyLinks), plan)
    {
      hide Woven, GraphOf, Counted, Unconfirmed, Filed, Partitioned;
      r := PartitionSteps(null, queued, changes, plan);
    }

    /** Whatever the host does in between, the cooperative partition fails or
        returns what the synchronous one would have returned at the start; and it
        fails only where the host interfered. */
    method PartitionCooperatively(queued: seq<Hint>, changes: seq<FileChange>, plan: Plan, host: nat -> Turn,
                                  aborted: bool)
      returns (r: Result<Partition, Fault>)
      requires Valid()
      modifies this, owned, registrations
      ensures Valid()
      ensures r.Ok? || r.error == Admission ==>
        r == Partitioned(queued, changes, old(records), Arcs(old(legacyLinks)), plan)
      ensures if aborted then r == Err(Aborted) else Calm(host) ==> r.Ok? || r.error == Admission
    {
      hide Woven, GraphOf, Counted, Unconfirmed, Filed, Partitioned;
      var run := new Cooperation(host, Planning, planningRevision, aborted);
      if run.aborted { return Err(Aborted); }
      r := PartitionSteps(run, queued, changes, plan);
    }

    // --------------------------------------------------------- dependency capture

    /** One link of `path`; the caller goes on with the other ends. */
    method CaptureEdge(path: string, ends: set<string>, rows: seq<Snapshot>, count: nat, limit: Option<nat>,
                       ghost seen: set<Arc>, ghost g: Graph)
      returns (ok: bool, more: seq<Snapshot>, rest: set<string>)
      requires Valid() && g == Links() && ends != {} && CapturingPath(rows, count, path, ends, seen, g, limit)
      ensures rest < ends
      ensures ok ==> CapturingPath(more, count + 1, path, rest, seen, g, limit)
      ensures !ok ==> TooMany(g, limit)
    {
      hide Woven, GraphOf, Counted, Unconfirmed, Filed, CapturingPath, Mirrored, TooMany, At, Arcs;
      var to :| to in ends;
      rest := ends - {to};
      EndIsLinked(legacyLinks, owned, rows, count, path, ends, to, seen, limit);
      ok, more := CaptureNext(path, to, At(legacyLinks, Arc(path, to)).State(), rows, count, limit, ends, seen, g);
    }

    /** The rows of one path's links. */
    method CapturePath(run: Cooperation?, path: string, rows: seq<Snapshot>, limit: Option<nat>, visits: nat,
                       ghost seen: set<Arc>)
      returns (r: Result<(seq<Snapshot>, nat), Fault>)
      requires Valid() && Current(run) && path in legacyLinks
      requires CapturingPath(rows, visits, path, legacyLinks[path].Keys, seen, Links(), limit)
      modifies Footprint(run)
      ensures Valid()
      ensures r.Ok? ==>
        Undisturbed(run) && Links() == old(Links()) &&
          CapturingPath(r.value.0, r.value.1, path, {}, seen, Links(), limit)
      ensures r.Err? && r.error != Admission ==> run != null && !Calm(run.host)
      ensures r == Err(Admission) ==> TooMany(old(Links()), limit)
      decreases run != null, 1
    {
      hide Woven, GraphOf, Counted, Unconfirmed, Filed, CapturingPath, TooMany;
      ghost var g := Links();
      var ends, captured, count := legacyLinks[path].Keys, rows, visits;
      while ends != {}
        invariant Undisturbed(run) && Links() == g && CapturingPath(captured, count, path, ends, seen, g, limit)
        decreases ends
      {
        var ok;
        ok, captured, ends := CaptureEdge(path, ends, captured, count, limit, seen, g);
        if !ok { return Err(Admission); }
        count := count + 1;
        var fault := Yield(run);
        if fault.Some? { return Err(fault.value); }
      }
      return Ok((captured, count));
    }

    method CaptureOnePath(run: Cooperation?, path: string, rows: seq<Snapshot>, limit: Option<nat>, visits: nat,
                          ghost done: set<string>)
      returns (r: Result<(seq<Snapshot>, nat), Fault>)
      requires Valid() && Current(run) && path in legacyLinks && path !in done
      requires CapturingPaths(rows, visits, done, Links(), limit)
      modifies Footprint(run)
      ensures Valid()
      ensures r.Ok? ==>
        Undisturbed(run) && Links() == old(Links()) &&
          CapturingPaths(r.value.0, r.value.1, done + {path}, Links(), limit)
      ensures r.Err? && r.error != Admission ==> run != null && !Calm(run.host)
      ensures r == Err(Admission) ==> TooMany(old(Links()), limit)
      decreases run != null, 2
    {
      hide Woven, GraphOf, Counted, Unconfirmed, Filed, CapturingPath, CapturingPaths, TooMany, Arcs, ArcsFrom;
      var fault := Yield(run);
      if fault.Some? { return Err(fault.value); }
      BeginPath(legacyLinks, owned, rows, visits, done, path, limit);
      r := CapturePath(run, path, rows, limit, visits, ArcsFrom(Links().Keys, done));
      if r.Ok? {
        EndPath(r.value.0, r.value.1, done, path, Links(), limit);
      }
    }

    /** One row per linked pair, or a refusal exactly when there are too many pairs. */
    method CaptureSteps(run: Cooperation?, limit: Option<nat>) returns (r: Result<seq<Snapshot>, Fault>)
      requires Valid() && Current(run)
      modifies Footprint(run)
      ensures Valid()
      ensures r.Ok? ==> IsCapture(r.value, old(Links())) && !TooMany(old(Links()), limit)
      ensures r.Err? && r.error != Admission ==> run != null && !Calm(run.host)
      ensures r == Err(Admission) ==> TooMany(old(Links()), limit)
      decreases run != null, 3
    {
      hide Woven, GraphOf, Counted, Unconfirmed, Filed, CapturingPaths, IsCapture, Pairs, Arcs, Tour;
      var paths, rows, count, visits := legacyLinks.Keys, [], 0, 0;
      ghost var g, done: set<string> := Links(), {};
      PathsAreBounded(legacyLinks, owned);
      StartCapture(legacyLinks, owned, limit);
      StartTour(paths);
      while paths != {}
        invariant Undisturbed(run) && Links() == g && Tour(done, paths, legacyLinks.Keys, count)
        invariant CapturingPaths(rows, visits, done, g, limit)
        decreases paths
      {
        var path, rest := Pick(paths, done, legacyLinks.Keys, count);
        count := count + 1;
        if limit.Some? && count > 2 * limit.value { return Err(Admission); }
        var captured := CaptureOnePath(run, path, rows, limit, visits, done);
        if captured.Err? { return Err(captured.error); }
        rows, visits := captured.value.0, captured.value.1;
        paths, done := rest, done + {path};
      }
      EndTour(done, legacyLinks.Keys, count);
      AllCaptured(legacyLinks, owned, rows, visits, limit);
      return Ok(rows);
    }

    /** `captureDependencies`: uncapped and without returning to the host. */
    method CaptureDependencies() returns (rows: seq<Snapshot>)
      requires Valid()
      ensures IsCapture(rows, Links())
    {
      hide Woven, GraphOf, Counted, Unconfirmed, Filed, IsCapture;
      var r := CaptureSteps(null, None);
      rows := r.value;
    }

    /** Whatever the host does in between, the cooperative capture fails or
        returns the pairs that were linked at the start; and it fails only where
        the host interfered. */
    method CaptureCooperatively(maxDependencies: Option<int>, host: nat -> Turn, aborted: bool)
      returns (r: Result<seq<Snapshot>, Fault>)
      requires Valid()
      modifies this, owned, registrations
      ensures Valid()
      ensures var limit := maxDependencies.GetOr(MAX_DEPENDENCIES);
        if !(1 <= limit <= MAX_DEPENDENCIES) then r == Err(Admission)
        else
          && (r.Ok? ==> IsCapture(r.value, old(Links())) && |Pairs(old(Links()))| <= limit)
          && (r == Err(Admission) ==> |Pairs(old(Links()))| > limit)
          && (if aborted then r == Err(Aborted) else Calm(host) ==> r.Ok? || r.error == Admission)
    {
      hide Woven, GraphOf, Counted, Unconfirmed, Filed, IsCapture, Pairs;
      var limit := maxDependencies.GetOr(MAX_DEPENDENCIES);
      if limit < 1 || limit > MAX_DEPENDENCIES { return Err(Admission); }
      var run := new Cooperation(host, Dependencies, dependencyRevision, aborted);
      if run.aborted { return Err(Aborted); }
      r := CaptureSteps(run, Some(limit));
    }

    /** A path is linked iff some pair has it as an endpoint. */
    method HasLinkedPath(path: string) returns (linked: bool)
      requires Valid()
      ensures linked <==> exists k :: k in Links() && (Links()[k].left == path || Links()[k].right == path)
    {
      hide Woven, GraphOf, Counted, Unconfirmed, Filed, Mirrored, At;
      GraphKeys(legacyLinks, owned);
      GraphIsMirrored(legacyLinks, owned);
      linked := path in legacyLinks;
      MirroredEnds(Links(), path);
    }

    /** Any run of the tracker does to its dependencies what the events say. */
    method Play(events: seq<Event>)
      requires Valid()
      modifies this, owned, registrations
      ensures Valid() && Tracked() == Played(old(Tracked()), events)
    {
      hide Woven, GraphOf, Counted, Unconfirmed, Filed, Stepped;
      for i := 0 to |events|
        invariant Valid() && Grown() && Tracked() == Played(old(Tracked()), events[..i])
      {
        Apply(events[i]);
        assert events[..i + 1][..i] == events[..i];
      }
      assert events[..|events|] == events;
    }
  }
}
