/** The crash-safe downgrade of the segmented stores to the legacy files: a
    file-system protocol whose every write or rename may be the last one. */
module LegacyDowngrade {
  import opened Common

  // The thirteen fixed source paths, numbered in path order.
  const SOURCE_COUNT := 13
  const JOURNAL_LEGACY := 0
  const JOURNAL_STORE := 3
  const BASE_LEGACY := 6
  const BASE_BACKUP := 7
  const BASE_NEXT := 8
  const BASE_STORE := 9

  const MAX_FILE_BYTES := 8 * 1024 * 1024

  /** SHA-256, taken to be collision free. */
  datatype Hash = Sha256(of: string)

  datatype Core = Core(journal: Hash, base: Hash, rootLastSequence: nat, archiveSources: seq<nat>)

  /** The digest of the identity fields. */
  datatype BundleId = BundleId(of: Core)

  datatype Phase = Prepared | Archived | Active | CurrentImport | CurrentActive

  datatype Marker = Marker(core: Core, bundleId: BundleId, phase: Phase)

  datatype Path =
    | Source(i: nat)
    | MarkerPath(phase: Phase)
    | ArchiveRoot
    | BundleDir(id: BundleId)
    | ProjectionDir(id: BundleId)
    | AuthorityDir(id: BundleId)
    | ProjectedJournal(id: BundleId)
    | ProjectedBase(id: BundleId)
    | ArchiveSlot(id: BundleId, i: nat)

  datatype Content = Raw(text: string) | Json(marker: Marker) | Folder(tag: nat)

  type Disk = map<Path, Content>

  datatype Code = Busy | Corrupt | Limit | RecoveryRequired | Unsafe | Crashed

  datatype Outcome = Done | Failed(code: Code)

  // ------------------------------------------------------------------- reads

  function Exists(d: Disk, p: Path): bool {
    p in d
  }

  /** A directory or an oversized file is refused, a missing path is not. */
  function ReadOptional(d: Disk, p: Path): Result<Option<Content>, Code> {
    if p !in d then Ok(None)
    else match d[p]
      case Folder(_) => Err(Limit)
      case Raw(text) => if |text| > MAX_FILE_BYTES then Err(Limit) else Ok(Some(d[p]))
      case Json(_) => Ok(Some(d[p]))
  }

  predicate Ascending(s: seq<nat>) {
    forall i, j | 0 <= i < j < |s| :: s[i] < s[j]
  }

  /** The inventory `validateMarker` accepts. */
  predicate ValidInventory(s: seq<nat>) {
    && |s| <= SOURCE_COUNT && Ascending(s) && (forall i | i in s :: i < SOURCE_COUNT)
    && JOURNAL_STORE in s && BASE_STORE in s
  }

  predicate ValidMarker(m: Marker, phase: Phase) {
    m.phase == phase && m.core.rootLastSequence < MAX_SAFE_INTEGER && ValidInventory(m.core.archiveSources)
  }

  function ReadMarker(d: Disk, phase: Phase): Result<Option<Marker>, Code> {
    match ReadOptional(d, MarkerPath(phase))
    case Err(code) => Err(code)
    case Ok(None) => Ok(None)
    case Ok(Some(Raw(_))) => Err(Corrupt)
    case Ok(Some(Folder(_))) => Err(Limit)
    case Ok(Some(Json(m))) =>
      if !ValidMarker(m, phase) || m.bundleId != BundleId(m.core) then Err(Corrupt) else Ok(Some(m))
  }

  /** The five markers read together; one unreadable marker fails the read. */
  datatype Phases = Phases(prepared: Option<Marker>, archived: Option<Marker>, active: Option<Marker>,
                           currentImport: Option<Marker>, currentActive: Option<Marker>)
  {
    predicate None() {
      prepared.None? && archived.None? && active.None? && currentImport.None? && currentActive.None?
    }
  }

  function ReadPhases(d: Disk): Result<Phases, Code> {
    var a, b, c := ReadMarker(d, Prepared), ReadMarker(d, Archived), ReadMarker(d, Active);
    var e, f := ReadMarker(d, CurrentImport), ReadMarker(d, CurrentActive);
    if a.Err? then Err(a.error) else if b.Err? then Err(b.error) else if c.Err? then Err(c.error)
    else if e.Err? then Err(e.error) else if f.Err? then Err(f.error)
    else Ok(Phases(a.value, b.value, c.value, e.value, f.value))
  }

  /** Present implies equal core fields. */
  predicate SameCore(m: Option<Marker>, prepared: Option<Marker>) {
    m.Some? ==> prepared.Some? && m.value.core == prepared.value.core && m.value.bundleId == prepared.value.bundleId
  }

  function ReleasedAt(d: Disk, released: string -> bool, p: Path): Result<bool, Code> {
    match ReadOptional(d, p)
    case Err(code) => Err(code)
    case Ok(Some(Raw(text))) => Ok(released(text))
    case _ => Ok(false)
  }

  /** The released reader tries the staged copy, the main file and the backup. */
  function HasReleasedBase(d: Disk, released: string -> bool): Result<bool, Code> {
    var next := ReleasedAt(d, released, Source(BASE_NEXT));
    if next.Err? || next.value then next
    else
      var main := ReleasedAt(d, released, Source(BASE_LEGACY));
      if main.Err? || main.value then main else ReleasedAt(d, released, Source(BASE_BACKUP))
  }

  /** Both legacy files are there for a legacy reader. */
  predicate LegacyReadable(d: Disk, released: string -> bool) {
    && ReadOptional(d, Source(JOURNAL_LEGACY)).Ok? && ReadOptional(d, Source(JOURNAL_LEGACY)).value.Some?
    && HasReleasedBase(d, released) == Ok(true)
  }

  datatype Allowance = NoSource | PromotedMain | LegacyActive

  predicate Allows(a: Allowance, i: nat) {
    a.LegacyActive? || (a.PromotedMain? && (i == JOURNAL_LEGACY || i == BASE_LEGACY))
  }

  /** `validateArchivedInventory`. */
  predicate InventoryHolds(d: Disk, core: Core, a: Allowance) {
    && (forall i | i in core.archiveSources :: Exists(d, ArchiveSlot(BundleId(core), i)))
    && (forall i | 0 <= i < SOURCE_COUNT :: Exists(d, Source(i)) ==> Allows(a, i))
  }

  datatype DowngradeState = NoDowngrade | Interrupted | LegacyIsActive | ImportAuthorized | ImportComplete

  function Inspect(d: Disk): Result<DowngradeState, Code> {
    var r := ReadPhases(d);
    if r.Err? then Err(r.error)
    else
      var m := r.value;
      if m.None() then Ok(NoDowngrade)
      else if m.prepared.None? || (m.active.Some? && m.archived.None?) || !SameCore(m.archived, m.prepared) ||
              !SameCore(m.active, m.prepared) || (m.currentImport.Some? && m.active.None?) ||
              !SameCore(m.currentImport, m.prepared) || (m.currentActive.Some? && m.currentImport.None?) ||
              !SameCore(m.currentActive, m.prepared)
      then Err(Corrupt)
      else Ok(if m.currentActive.Some? then ImportComplete else if m.currentImport.Some? then ImportAuthorized
              else if m.active.Some? then LegacyIsActive else Interrupted)
  }

  /** May a current store be opened? `Ok(false)` means no downgrade ever began. */
  function AssertReadable(d: Disk, released: string -> bool): Result<bool, Code> {
    var r := ReadPhases(d);
    if r.Err? then Err(RecoveryRequired)
    else
      var m := r.value;
      if m.None() then Ok(false)
      else if m.prepared.None? || (m.active.Some? && m.archived.None?) || !SameCore(m.archived, m.prepared) ||
              !SameCore(m.active, m.prepared) || !SameCore(m.currentImport, m.prepared) ||
              (m.currentActive.Some? && m.currentImport.None?) || !SameCore(m.currentActive, m.prepared) ||
              m.active.None? || !LegacyReadable(d, released) ||
              !InventoryHolds(d, m.active.value.core, LegacyActive) || m.currentImport.None?
      then Err(RecoveryRequired)
      else Ok(true)
  }

  function RootSequenceFloor(d: Disk): Result<Option<nat>, Code> {
    var r := ReadPhases(d);
    if r.Err? then Err(r.error)
    else
      var m := r.value;
      if m.active.None? then if m.None() then Ok(None) else Err(RecoveryRequired)
      else if m.prepared.None? || m.archived.None? || !SameCore(m.archived, m.prepared) ||
        !SameCore(m.active, m.prepared) ||
              !SameCore(m.currentImport, m.prepared) || (m.currentActive.Some? && m.currentImport.None?) ||
              !SameCore(m.currentActive, m.prepared)
      then Err(Corrupt)
      else Ok(Some(m.active.value.core.rootLastSequence))
  }

  // -------------------------------------------------------- reachable disks

  /** What one downgrade is about: its cut and the sources as it found them. */
  datatype Plan = Plan(core: Core, journal: string, base: string, origin: map<nat, Content>)

  ghost predicate Sensible(p: Plan, released: string -> bool) {
    && p.core.journal == Sha256(p.journal) && p.core.base == Sha256(p.base)
    && |p.journal| <= MAX_FILE_BYTES && |p.base| <= MAX_FILE_BYTES && released(p.base)
    && p.core.rootLastSequence < MAX_SAFE_INTEGER && ValidInventory(p.core.archiveSources)
    && (forall i :: i in p.core.archiveSources <==> i in p.origin)
  }

  function Order(phase: Phase): nat {
    match phase
    case Prepared => 0
    case Archived => 1
    case Active => 2
    case CurrentImport => 3
    case CurrentActive => 4
  }

  /** What inspection calls the stage with `n` markers. */
  function Name(n: nat): DowngradeState {
    if n == 0 then NoDowngrade else if n <= 2 then Interrupted else if n == 3 then LegacyIsActive
    else if n == 4 then ImportAuthorized else ImportComplete
  }

  function MarkerOf(p: Plan, phase: Phase): Marker {
    Marker(p.core, BundleId(p.core), phase)
  }

  /** Exactly the first `n` phases have left their marker. */
  ghost predicate MarkersAre(d: Disk, p: Plan, n: nat) {
    forall phase :: if Order(phase) < n then MarkerPath(phase) in d && d[MarkerPath(phase)] == Json(MarkerOf(p, phase))
                    else MarkerPath(phase) !in d
  }

  ghost predicate NoMarkers(d: Disk) {
    forall phase :: MarkerPath(phase) !in d
  }

  ghost predicate ProjectionKept(d: Disk, p: Plan) {
    var id := BundleId(p.core);
    && ProjectedJournal(id) in d && d[ProjectedJournal(id)] == Raw(p.journal)
    && ProjectedBase(id) in d && d[ProjectedBase(id)] == Raw(p.base)
  }

  predicate AtSource(d: Disk, p: Plan, i: nat)
    requires i in p.origin
  {
    Source(i) in d && d[Source(i)] == p.origin[i] && ArchiveSlot(BundleId(p.core), i) !in d
  }

  predicate InArchive(d: Disk, p: Plan, i: nat)
    requires i in p.origin
  {
    ArchiveSlot(BundleId(p.core), i) in d && d[ArchiveSlot(BundleId(p.core), i)] == p.origin[i]
  }

  /** Every original is in exactly one of its two places, nothing else exists. */
  ghost predicate Moving(d: Disk, p: Plan) {
    && (forall i | i in p.origin :: AtSource(d, p, i) || (InArchive(d, p, i) && Source(i) !in d))
    && (forall i: nat | Source(i) in d && i < SOURCE_COUNT :: i in p.origin)
  }

  ghost predicate AllArchived(d: Disk, p: Plan) {
    forall i | i in p.origin :: InArchive(d, p, i)
  }

  ghost predicate OnlyPromoted(d: Disk) {
    forall i: nat | Source(i) in d && i < SOURCE_COUNT :: i == JOURNAL_LEGACY || i == BASE_LEGACY
  }

  /** The disks the protocol can leave once `n` markers are durable. */
  ghost predicate Stage(d: Disk, p: Plan, n: nat) {
    && 1 <= n <= 5 && MarkersAre(d, p, n) && ProjectionKept(d, p)
    && (n == 1 ==> Moving(d, p))
    && (n >= 2 ==> AllArchived(d, p))
    && (n == 2 ==> OnlyPromoted(d))
  }

  ghost predicate Clean(d: Disk) {
    NoMarkers(d) && forall id, i :: ArchiveSlot(id, i) !in d
  }

  lemma MarkersRead(d: Disk, p: Plan, n: nat, released: string -> bool, phase: Phase)
    requires Sensible(p, released) && MarkersAre(d, p, n)
    ensures ReadMarker(d, phase) == Ok(if Order(phase) < n then Some(MarkerOf(p, phase)) else None)
  {}

  lemma PhasesRead(d: Disk, p: Plan, n: nat, released: string -> bool)
    requires Sensible(p, released) && MarkersAre(d, p, n)
    ensures ReadPhases(d) == Ok(Phases(
              if 0 < n then Some(MarkerOf(p, Prepared)) else None, if 1 < n then Some(MarkerOf(p, Archived)) else None,
              if 2 < n then Some(MarkerOf(p, Active)) else None,
              if 3 < n then Some(MarkerOf(p, CurrentImport)) else None,
              if 4 < n then Some(MarkerOf(p, CurrentActive)) else None))
  {
    hide Sensible, MarkersAre, ReadMarker;
    MarkersRead(d, p, n, released, Prepared);
    MarkersRead(d, p, n, released, Archived);
    MarkersRead(d, p, n, released, Active);
    MarkersRead(d, p, n, released, CurrentImport);
    MarkersRead(d, p, n, released, CurrentActive);
  }

  /** On every reachable disk inspection names the phase and never reports
      corruption, and the retained root sequence is that of the cut. */
  lemma InspectionIsExact(d: Disk, p: Plan, n: nat, released: string -> bool)
    requires Sensible(p, released) && Stage(d, p, n)
    ensures Inspect(d) == Ok(Name(n))
    ensures RootSequenceFloor(d) == if n >= 3 then Ok(Some(p.core.rootLastSequence)) else Err(RecoveryRequired)
  {
    hide ReadPhases, ReadMarker, Sensible;
    PhasesRead(d, p, n, released);
  }

  lemma CleanReads(d: Disk, released: string -> bool)
    requires Clean(d)
    ensures ReadPhases(d) == Ok(Phases(None, None, None, None, None))
    ensures Inspect(d) == Ok(NoDowngrade) && AssertReadable(d, released) == Ok(false)
    ensures RootSequenceFloor(d) == Ok(None)
  {}

  /** Current stores refuse to open from the prepared marker on until the import
      is authorised, and afterwards open exactly while the legacy files last. */
  lemma StoresAreFenced(d: Disk, p: Plan, n: nat, released: string -> bool)
    requires Sensible(p, released) && Stage(d, p, n)
    ensures n >= 1
    ensures AssertReadable(d, released) ==
      if n >= 4 && LegacyReadable(d, released) then Ok(true) else Err(RecoveryRequired)
  {
    hide ReadPhases, ReadMarker, LegacyReadable;
    PhasesRead(d, p, n, released);
  }

  /** The hand-over state: both legacy files are the projection, all else archived. */
  ghost predicate Handed(d: Disk, p: Plan) {
    && Source(JOURNAL_LEGACY) in d && d[Source(JOURNAL_LEGACY)] == Raw(p.journal)
    && Source(BASE_LEGACY) in d && d[Source(BASE_LEGACY)] == Raw(p.base)
    && AllArchived(d, p) && OnlyPromoted(d)
  }

  lemma HandedIsReadable(d: Disk, p: Plan, released: string -> bool)
    requires Sensible(p, released) && Handed(d, p)
    ensures LegacyReadable(d, released)
  {}

  /** The disks differ at most at `q`. */
  ghost predicate SameBut(d: Disk, e: Disk, q: Path) {
    forall x | x != q :: (x in d <==> x in e) && (x in d ==> d[x] == e[x])
  }

  /** Rewriting, or tearing, a promoted file stays within the second stage. */
  lemma PromotionKeepsStage(d: Disk, e: Disk, p: Plan, i: nat)
    requires Stage(d, p, 2) && SameBut(d, e, Source(i)) && (i == JOURNAL_LEGACY || i == BASE_LEGACY)
    ensures Stage(e, p, 2)
  {}

  lemma StageTwoHolds(d: Disk, p: Plan, released: string -> bool)
    requires Sensible(p, released) && Stage(d, p, 2)
    ensures AllArchived(d, p) && OnlyPromoted(d) && InventoryHolds(d, p.core, PromotedMain)
  {}

  lemma MarkerKeepsHanded(d: Disk, e: Disk, p: Plan, phase: Phase)
    requires Handed(d, p) && SameBut(d, e, MarkerPath(phase))
    ensures Handed(e, p)
  {}

  // ------------------------------------------------------------ the protocol

  datatype Request = Request(journal: string, base: string, rootLastSequence: nat,
                             treeVersion: nat, intentPending: bool, verifiedBaseRequired: bool)

  /** A crash may leave part of a promoted or projected file, never of a marker. */
  predicate Tearable(p: Path) {
    p == Source(JOURNAL_LEGACY) || p == Source(BASE_LEGACY) || p.ProjectedJournal? || p.ProjectedBase?
  }

  /** Archives, projections and markers, once written, are never changed. */
  ghost predicate Keeps(before: Disk, after: Disk) {
    forall q | q in before && (q.ArchiveSlot? || q.ProjectedJournal? || q.ProjectedBase? || q.MarkerPath?) ::
      q in after && after[q] == before[q]
  }

  ghost predicate OnlyFoldersAdded(d: Disk, e: Disk) {
    forall q: Path ::
      q.ArchiveRoot? || q.BundleDir? || q.ProjectionDir? || ((q in d <==> q in e) && (q in d ==> d[q] == e[q]))
  }

  function Digest(c: Content): Hash {
    Sha256(if c.Raw? then c.text else "")
  }

  /** The sources present among the first `n`, in path order. */
  function Inventory(d: Disk, n: nat): seq<nat> {
    if n == 0 then [] else Inventory(d, n - 1) + if Source(n - 1) in d then [n - 1] else []
  }

  lemma {:induction false} InventoryIsExact(d: Disk, n: nat)
    ensures Ascending(Inventory(d, n)) && |Inventory(d, n)| <= n
    ensures forall i: nat :: i in Inventory(d, n) <==> i < n && Source(i) in d
  {
    if n > 0 {
      InventoryIsExact(d, n - 1);
      var before := Inventory(d, n - 1);
      assert forall i | 0 <= i < |before| :: before[i] in before;
    }
  }

  /** The cut an activation takes of this disk. */
  function CutOf(d: Disk, req: Request): Core {
    Core(Sha256(req.journal), Sha256(req.base), req.rootLastSequence, Inventory(d, SOURCE_COUNT))
  }

  ghost function PlanOf(d: Disk, req: Request): Plan {
    Plan(CutOf(d, req), req.journal, req.base, map i: nat | i < SOURCE_COUNT && Source(i) in d :: d[Source(i)])
  }

  /** Nothing but the wanted file may already sit at an immutable path. */
  predicate FreeFor(d: Disk, p: Path, c: Content) {
    p in d ==> d[p] == c
  }

  /** When an undisturbed activation of a clean disk succeeds. */
  predicate CutPossible(d: Disk, req: Request) {
    var id := BundleId(CutOf(d, req));
    && |req.journal| <= MAX_FILE_BYTES && |req.base| <= MAX_FILE_BYTES
    && Source(JOURNAL_STORE) in d && Source(BASE_STORE) in d
    && FreeFor(d, ProjectedJournal(id), Raw(req.journal)) && FreeFor(d, ProjectedBase(id), Raw(req.base))
  }

  /** What the two projection files of a cut must hold. */
  predicate Unblocked(d: Disk, id: BundleId, journal: string, base: string) {
    FreeFor(d, ProjectedJournal(id), Raw(journal)) && FreeFor(d, ProjectedBase(id), Raw(base))
  }

  /** The folders an activation still has to make before it writes the projection. */
  function MissingFolders(d: Disk, id: BundleId): nat {
    (if ArchiveRoot in d then 0 else 1) + (if BundleDir(id) in d then 0 else 1) +
      (if ProjectionDir(id) in d then 0 else 1)
  }

  /** The process dies in the write of a projection file and leaves part of it. */
  predicate TearsProjection(d: Disk, id: BundleId, journal: string, base: string, budget: Option<nat>,
                            tear: Option<string>) {
    var first := MissingFolders(d, id);
    var hasJournal := ProjectedJournal(id) in d;
    && budget.Some? && tear.Some?
    && (|| (!hasJournal && budget.value == first && tear.value != journal)
        || (ProjectedBase(id) !in d && budget.value == first + (if hasJournal then 0 else 1) && tear.value != base))
  }

  /** A projection file torn by a crash blocks every retry of the same cut: the file
      is neither rewritten nor removed. It stays possible only if nothing was torn. */
  lemma TornProjectionBlocksRetry(d: Disk, req: Request, file: Path, whole: string, torn: string)
    requires Clean(d) && CutPossible(d, req)
    requires var id := BundleId(CutOf(d, req));
             (file == ProjectedJournal(id) && whole == req.journal) || (file == ProjectedBase(id) && whole == req.base)
    ensures Clean(d[file := Raw(torn)]) && (CutPossible(d[file := Raw(torn)], req) <==> torn == whole)
  {
    InventoryIgnores(d, d[file := Raw(torn)], SOURCE_COUNT);
  }

  lemma CutMeans(d: Disk, req: Request, core: Core)
    requires core == CutOf(d, req) && |req.journal| <= MAX_FILE_BYTES && |req.base| <= MAX_FILE_BYTES
    requires JOURNAL_STORE in core.archiveSources && BASE_STORE in core.archiveSources
    ensures Source(JOURNAL_STORE) in d && Source(BASE_STORE) in d
    ensures CutPossible(d, req) <==> Unblocked(d, BundleId(core), req.journal, req.base)
  {
    InventoryIsExact(d, SOURCE_COUNT);
  }

  lemma SameCut(d: Disk, e: Disk, req: Request)
    requires SameSources(d, e)
    ensures CutOf(e, req) == CutOf(d, req)
  {
    InventoryIgnores(d, e, SOURCE_COUNT);
  }

  /** The same cut on the same sources is possible exactly while it is unblocked. */
  lemma CutStaysPossible(d: Disk, e: Disk, req: Request)
    requires SameSources(d, e) && CutPossible(d, req)
    ensures CutOf(e, req) == CutOf(d, req)
    ensures CutPossible(e, req) <==> Unblocked(e, BundleId(CutOf(d, req)), req.journal, req.base)
  {
    InventoryIgnores(d, e, SOURCE_COUNT);
  }

  lemma {:induction false} InventoryIgnores(d: Disk, e: Disk, n: nat)
    requires SameSources(d, e)
    ensures Inventory(d, n) == Inventory(e, n)
  {
    if n > 0 { InventoryIgnores(d, e, n - 1); }
  }

  ghost predicate SameSources(d: Disk, e: Disk) {
    forall i: nat :: (Source(i) in d <==> Source(i) in e) && (Source(i) in d ==> d[Source(i)] == e[Source(i)])
  }

  /** The prepared marker starts the first stage. */
  lemma PreparedStarts(d: Disk, e: Disk, req: Request, released: string -> bool)
    requires Clean(e) && SameSources(d, e) && CutPossible(d, req) && released(req.base)
    requires req.rootLastSequence < MAX_SAFE_INTEGER && ProjectionKept(e, PlanOf(d, req))
    ensures Sensible(PlanOf(d, req), released)
    ensures Stage(e[MarkerPath(Prepared) := Json(MarkerOf(PlanOf(d, req), Prepared))], PlanOf(d, req), 1)
  {
    InventoryIsExact(d, SOURCE_COUNT);
  }

  /** An activation of this disk dies in the write of a projection file. */
  predicate Tears(d: Disk, req: Request, budget: Option<nat>, tear: Option<string>) {
    TearsProjection(d, BundleId(CutOf(d, req)), req.journal, req.base, budget, tear)
  }

  predicate GatesOpen(req: Request) {
    req.treeVersion == 1 && !req.intentPending && !req.verifiedBaseRequired
  }

  /** The disk with its fixed sources replaced, as a client leaves them. */
  function WithSources(d: Disk, sources: map<nat, Content>): Disk {
    (map q | q in d && !q.Source? :: d[q]) + (map i | i in sources :: Source(i) := sources[i])
  }

  /** Outside the moving phases a client may do to the sources what it likes. */
  lemma ClientKeepsStage(d: Disk, p: Plan, n: nat, sources: map<nat, Content>)
    requires Stage(d, p, n) && n >= 3
    ensures Stage(WithSources(d, sources), p, n) && Keeps(d, WithSources(d, sources))
  {}

  lemma ClientKeepsClean(d: Disk, sources: map<nat, Content>)
    ensures Clean(d) ==> Clean(WithSources(d, sources))
    ensures Keeps(d, WithSources(d, sources))
  {}

  datatype Operation =
    | DoActivate(req: Request)
    | DoResume
    | DoAuthorize(rootLastSequence: int)
    | DoComplete
    | CurrentClientWrites(sources: map<nat, Content>)
    | LegacyClientWrites(sources: map<nat, Content>)

  /** One operation of a run, and where it is cut short. */
  datatype Event = Event(op: Operation, budget: Option<nat>, tear: Option<string>)

  /** The budget after some changes that it covers. */
  function Less(budget: Option<nat>, changes: nat): Option<nat>
    requires budget.Some? ==> changes <= budget.value
  {
    if budget.None? then None else Some(budget.value - changes)
  }

  class Vault {
    var disk: Disk
    /** Changes left before the process dies; `None` for an undisturbed run. */
    var budget: Option<nat>
    /** What a write cut short leaves behind, if anything. */
    var tear: Option<string>
    /** The cut in progress and how many markers vouch for it. */
    ghost var plan: Option<Plan>
    ghost var stage: nat
    const released: string -> bool

    /** The disk is one the protocol can leave. */
    ghost predicate Valid()
      reads this
    {
      match plan
      case None => Clean(disk) && stage == 0
      case Some(p) => Sensible(p, released) && Stage(disk, p, stage)
    }

    /** The disk is valid and its cut has this core and `n` markers. */
    ghost predicate On(core: Core, n: nat)
      reads this
    {
      Valid() && stage == n && plan.Some? && plan.value.core == core
    }

    /** What no operation undoes, on valid disks or others. */
    twostate predicate Progressed()
      reads this
    {
      && Keeps(old(disk), disk)
      && (old(budget).None? ==> budget.None?)
      && (old(Valid()) ==> Valid() && stage >= old(stage) && (old(plan).Some? ==> plan == old(plan)))
    }

    constructor (disk: Disk, released: string -> bool)
      ensures this.disk == disk && this.released == released && budget == None && plan == None
      ensures Clean(disk) ==> Valid()
    {
      this.disk, this.released := disk, released;
      budget, tear, plan, stage := None, None, None, 0;
    }

    method Write(p: Path, c: Content) returns (crashed: bool)
      modifies this`disk, this`budget
      ensures crashed <==> old(budget) == Some(0)
      ensures budget == if crashed then old(budget) else Less(old(budget), 1)
      ensures !crashed ==> disk == old(disk)[p := c]
      ensures crashed ==> disk == if Tearable(p) && tear.Some? then old(disk)[p := Raw(tear.value)] else old(disk)
    {
      if budget == Some(0) {
        if tear.Some? && Tearable(p) { disk := disk[p := Raw(tear.value)]; }
        return true;
      }
      if budget.Some? { budget := Some(budget.value - 1); }
      disk := disk[p := c];
      return false;
    }

    method Rename(p: Path, q: Path) returns (crashed: bool)
      requires p in disk && p != q
      modifies this`disk, this`budget
      ensures crashed <==> old(budget) == Some(0)
      ensures old(budget).None? ==> budget.None?
      ensures disk == if crashed then old(disk) else (old(disk) - {p})[q := old(disk)[p]]
    {
      if budget == Some(0) { return true; }
      if budget.Some? { budget := Some(budget.value - 1); }
      disk := (disk - {p})[q := disk[p]];
      return false;
    }

    method EnsureDir(p: Path) returns (crashed: bool)
      requires p.ArchiveRoot? || p.BundleDir? || p.ProjectionDir? || p.AuthorityDir?
      modifies this`disk, this`budget
      ensures Progressed()
      ensures crashed <==> p !in old(disk) && old(budget) == Some(0)
      ensures budget == if p in old(disk) || crashed then old(budget) else Less(old(budget), 1)
      ensures disk == if p in old(disk) || crashed then old(disk) else old(disk)[p := Folder(0)]
    {
      if p !in disk {
        crashed := Write(p, Folder(0));
      } else {
        crashed := false;
      }
    }

    /** An existing file is kept if it has the wanted contents and refused otherwise. */
    method WriteImmutable(p: Path, c: Content) returns (r: Outcome)
      requires c.Json? || (c.Raw? && |c.text| <= MAX_FILE_BYTES)
      modifies this`disk, this`budget
      ensures r == Failed(Crashed) <==> p !in old(disk) && old(budget) == Some(0)
      ensures budget == if p in old(disk) || r == Failed(Crashed) then old(budget) else Less(old(budget), 1)
      ensures p in old(disk) ==> disk == old(disk) && (r.Done? <==> old(disk)[p] == c)
      ensures p !in old(disk) ==> r.Done? || r == Failed(Crashed)
      ensures p !in old(disk) && r.Done? ==> disk == old(disk)[p := c]
      ensures r == Failed(Crashed) ==>
        disk == if Tearable(p) && tear.Some? then old(disk)[p := Raw(tear.value)] else old(disk)
    {
      var existing := ReadOptional(disk, p);
      if existing.Err? { return Failed(existing.error); }
      if existing.value.Some? {
        if existing.value.value != c { return Failed(Corrupt); }
        return Done;
      }
      var crashed := Write(p, c);
      if crashed { return Failed(Crashed); }
      if ReadOptional(disk, p) != Ok(Some(c)) { return Failed(RecoveryRequired); }
      return Done;
    }

    /** The marker of a later phase, once everything it vouches for is on disk. */
    method WriteMarker(core: Core, phase: Phase) returns (r: Outcome)
      modifies this`disk, this`budget, this`stage
      ensures Keeps(old(disk), disk) && (old(budget).None? ==> budget.None?)
      ensures old(On(core, Order(phase))) && (phase == Archived ==> old(Vacated(core))) ==>
              && On(core, if r.Done? then Order(phase) + 1 else Order(phase))
              && (r.Done? || (r == Failed(Crashed) && old(budget).Some?))
              && disk == if r.Done? then old(disk)[MarkerPath(phase) := Json(Marker(core, BundleId(core), phase))]
                else old(disk)
    {
      ghost var on := On(core, Order(phase)) && (phase == Archived ==> Vacated(core)) && Order(phase) >= 1;
      r := WriteImmutable(MarkerPath(phase), Json(Marker(core, BundleId(core), phase)));
      if on && r.Done? { stage := stage + 1; }
    }

    /** Every source has left for the archive. */
    ghost predicate Vacated(core: Core)
      reads this
    {
      On(core, 1) && AllArchived(disk, plan.value) && forall i: nat | i < SOURCE_COUNT :: Source(i) !in disk
    }

    /** `moveOnce`: never overwrites, never loses. */
    method MoveOnce(core: Core, i: nat) returns (r: Outcome)
      modifies this`disk, this`budget
      ensures Keeps(old(disk), disk) && (old(budget).None? ==> budget.None?)
      ensures disk == old(disk) ||
              (&& Source(i) in old(disk) && ArchiveSlot(BundleId(core), i) !in old(disk)
               && disk == (old(disk) - {Source(i)})[ArchiveSlot(BundleId(core), i) := old(disk)[Source(i)]])
      ensures r.Done? ==> Source(i) !in disk && ArchiveSlot(BundleId(core), i) in disk
      ensures old(On(core, 1)) && i in core.archiveSources ==>
              On(core, 1) && (r.Done? || (r == Failed(Crashed) && old(budget).Some?))
    {
      var target := ArchiveSlot(BundleId(core), i);
      var hasSource, hasTarget := Exists(disk, Source(i)), Exists(disk, target);
      if hasSource && hasTarget { return Failed(Corrupt); }
      if !hasSource && hasTarget { return Done; }
      if !hasSource { return Failed(RecoveryRequired); }
      var crashed := Rename(Source(i), target);
      if crashed { return Failed(Crashed); }
      if Exists(disk, Source(i)) || !Exists(disk, target) { return Failed(RecoveryRequired); }
      return Done;
    }

    method MoveAll(core: Core) returns (r: Outcome)
      modifies this`disk, this`budget
      ensures Keeps(old(disk), disk) && (old(budget).None? ==> budget.None?)
      ensures old(On(core, 1)) ==> On(core, 1) && (r.Done? || (r == Failed(Crashed) && old(budget).Some?))
      ensures old(On(core, 1)) && r.Done? ==> Vacated(core)
    {
      var crashed := EnsureDir(AuthorityDir(BundleId(core)));
      if crashed { return Failed(Crashed); }
      for n := 0 to |core.archiveSources|
        invariant Keeps(old(disk), disk) && (old(budget).None? ==> budget.None?)
        invariant old(On(core, 1)) ==> On(core, 1)
        invariant forall j | 0 <= j < n :: Source(core.archiveSources[j]) !in disk
      {
        assert core.archiveSources[n] in core.archiveSources;
        r := MoveOnce(core, core.archiveSources[n]);
        if !r.Done? { return; }
      }
      assert forall i | i in core.archiveSources :: Source(i) !in disk;
      return Done;
    }

    method PromoteFile(core: Core, i: nat, c: Content) returns (crashed: bool)
      requires i == JOURNAL_LEGACY || i == BASE_LEGACY
      modifies this`disk, this`budget
      ensures Keeps(old(disk), disk) && (old(budget).None? ==> budget.None?)
      ensures crashed ==> old(budget).Some?
      ensures !crashed ==> disk == old(disk)[Source(i) := c]
      ensures old(On(core, 2)) ==> On(core, 2)
    {
      hide Stage;
      crashed := Write(Source(i), c);
      if old(On(core, 2)) { PromotionKeepsStage(old(disk), disk, plan.value, i); }
    }

    /** Write both legacy files from the projection, then vouch for them. */
    method Promote(core: Core, journal: Content, base: Content) returns (r: Outcome)
      modifies this`disk, this`budget, this`stage
      ensures Keeps(old(disk), disk) && (old(budget).None? ==> budget.None?)
      ensures old(On(core, 2)) && journal == Raw(plan.value.journal) && base == Raw(plan.value.base) ==>
              if r.Done? then On(core, 3) && Handed(disk, plan.value)
              else On(core, 2) && r == Failed(Crashed) && old(budget).Some?
    {
      hide Stage, InventoryHolds, OnlyPromoted, AllArchived;
      ghost var on := On(core, 2) && journal == Raw(plan.value.journal) && base == Raw(plan.value.base);
      var crashed := PromoteFile(core, JOURNAL_LEGACY, journal);
      if crashed { return Failed(Crashed); }
      crashed := PromoteFile(core, BASE_LEGACY, base);
      if crashed { return Failed(Crashed); }
      if ReadOptional(disk, Source(JOURNAL_LEGACY)) != Ok(Some(journal)) ||
         ReadOptional(disk, Source(BASE_LEGACY)) != Ok(Some(base)) {
        return Failed(RecoveryRequired);
      }
      if on { StageTwoHolds(disk, plan.value, released); }
      if !InventoryHolds(disk, core, PromotedMain) { return Failed(RecoveryRequired); }
      ghost var before := disk;
      r := WriteMarker(core, Active);
      if on && r.Done? { MarkerKeepsHanded(before, disk, plan.value, Active); }
    }

    /** Archive everything, or confirm that it is archived. */
    method EnsureArchived(core: Core) returns (r: Outcome)
      modifies this`disk, this`budget, this`stage
      ensures Keeps(old(disk), disk) && (old(budget).None? ==> budget.None?)
      ensures old(On(core, 1)) || old(On(core, 2)) ==>
              if r.Done? then On(core, 2)
              else old(On(core, 1)) && On(core, 1) && r == Failed(Crashed) && old(budget).Some?
    {
      if plan.Some? && Valid() { AllRead(); }
      var existing := ReadMarker(disk, Archived);
      if existing.Err? { return Failed(existing.ErrorOr(Corrupt)); }
      if existing.value.Some? {
        if existing.value.value.core != core { return Failed(Corrupt); }
        if !InventoryHolds(disk, core, PromotedMain) { return Failed(RecoveryRequired); }
        return Done;
      }
      r := MoveAll(core);
      if !r.Done? { return; }
      if !InventoryHolds(disk, core, NoSource) { return Failed(RecoveryRequired); }
      r := WriteMarker(core, Archived);
    }

    /** `resumePrepared`: from whatever an interruption left, to both legacy files,
        every source archived and the active marker. */
    method ResumePrepared(core: Core) returns (r: Outcome)
      modifies this`disk, this`budget, this`stage
      ensures Keeps(old(disk), disk) && (old(budget).None? ==> budget.None?)
      ensures old(On(core, 1)) || old(On(core, 2)) ==>
              if r.Done? then On(core, 3) && Handed(disk, plan.value)
              else (On(core, 1) || On(core, 2)) && stage >= old(stage) && r == Failed(Crashed) && old(budget).Some?
    {
      var id := BundleId(core);
      var journal, base := ReadOptional(disk, ProjectedJournal(id)), ReadOptional(disk, ProjectedBase(id));
      if journal.Err? { return Failed(journal.ErrorOr(Limit)); }
      if base.Err? { return Failed(base.ErrorOr(Limit)); }
      if journal.value.None? || base.value.None? || Digest(journal.value.value) != core.journal ||
         Digest(base.value.value) != core.base {
        return Failed(Corrupt);
      }
      r := EnsureArchived(core);
      if !r.Done? { return; }
      r := Promote(core, journal.value.value, base.value.value);
    }

    /** `resumeLegacyDowngrade`. */
    method Resume() returns (r: Outcome)
      modifies this`disk, this`budget, this`stage
      ensures Progressed()
      ensures old(Valid()) && old(stage) == 0 ==> r == Failed(RecoveryRequired) && disk == old(disk)
      ensures old(Valid()) && 1 <= old(stage) <= 2 ==>
              if r.Done? then stage == 3 && Handed(disk, plan.value) && LegacyReadable(disk, released)
              else stage <= 2 && r == Failed(Crashed) && old(budget).Some?
      ensures old(Valid()) && old(stage) >= 3 ==>
        disk == old(disk) && stage == old(stage) && (r.Done? <==> LegacyReadable(disk, released))
    {
      if Valid() { if plan.Some? { AllRead(); } else { CleanReads(disk, released); } }
      var prepared, archived, active := ReadMarker(disk, Prepared), ReadMarker(disk, Archived),
        ReadMarker(disk, Active);
      if prepared.Err? { return Failed(prepared.ErrorOr(Corrupt)); }
      if prepared.value.None? { return Failed(RecoveryRequired); }
      if archived.Err? { return Failed(archived.ErrorOr(Corrupt)); }
      if !SameCore(archived.value, prepared.value) { return Failed(Corrupt); }
      if active.Err? { return Failed(active.ErrorOr(Corrupt)); }
      if active.value.Some? {
        if archived.value.None? || !SameCore(active.value, prepared.value) { return Failed(Corrupt); }
        if !InventoryHolds(disk, active.value.value.core, LegacyActive) { return Failed(RecoveryRequired); }
        if !LegacyReadable(disk, released) { return Failed(RecoveryRequired); }
        return Done;
      }
      r := ResumePrepared(prepared.value.value.core);
      if Valid() && plan.Some? && Handed(disk, plan.value) { HandedIsReadable(disk, plan.value, released); }
    }

    lemma AllRead()
      requires Valid() && plan.Some?
      ensures forall phase :: ReadMarker(disk, phase) ==
                Ok(if Order(phase) < stage then Some(MarkerOf(plan.value, phase)) else None)
    {
      forall phase
        ensures ReadMarker(disk, phase) == Ok(if Order(phase) < stage then Some(MarkerOf(plan.value, phase)) else None)
      {
        MarkersRead(disk, plan.value, stage, released, phase);
      }
    }

    /** From any reachable disk with a prepared cut, any number of interrupted
        attempts followed by one undisturbed attempt completes the hand-over. */
    method SurviveCrashes(attempts: seq<(nat, Option<string>)>) returns (r: Outcome)
      requires Valid() && 1 <= stage <= 2
      modifies this
      ensures r.Done? && Valid() && plan == old(plan) && stage == 3 && Handed(disk, plan.value) &&
        LegacyReadable(disk, released)
      ensures Keeps(old(disk), disk)
    {
      for n := 0 to |attempts|
        invariant Valid() && plan == old(plan) && 1 <= stage <= 3 && Keeps(old(disk), disk)
        invariant stage == 3 ==> Handed(disk, plan.value)
      {
        budget, tear := Some(attempts[n].0), attempts[n].1;
        if stage == 3 { HandedIsReadable(disk, plan.value, released); }
        r := Resume();
      }
      budget := None;
      if stage == 3 { HandedIsReadable(disk, plan.value, released); }
      r := Resume();
    }

    method EnsureDirs(id: BundleId) returns (crashed: bool)
      modifies this`disk, this`budget
      ensures OnlyFoldersAdded(old(disk), disk)
      ensures crashed <==> old(budget).Some? && old(budget).value < MissingFolders(old(disk), id)
      ensures if crashed then budget.Some? else budget == Less(old(budget), MissingFolders(old(disk), id))
    {
      crashed := EnsureDir(ArchiveRoot);
      if crashed { return; }
      crashed := EnsureDir(BundleDir(id));
      if crashed { return; }
      crashed := EnsureDir(ProjectionDir(id));
    }

    /** The two projection files, written once. */
    method WriteProjection(core: Core, journal: string, base: string) returns (r: Outcome)
      requires |journal| <= MAX_FILE_BYTES && |base| <= MAX_FILE_BYTES
      modifies this`disk, this`budget
      ensures Keeps(old(disk), disk) && SameSources(old(disk), disk) && (old(budget).None? ==> budget.None?)
      ensures old(Clean(disk)) ==> Clean(disk)
      ensures r.Done? ==>
        ProjectedJournal(BundleId(core)) in disk && disk[ProjectedJournal(BundleId(core))] == Raw(journal)
      ensures r.Done? ==> ProjectedBase(BundleId(core)) in disk && disk[ProjectedBase(BundleId(core))] == Raw(base)
      ensures r.Done? ==> old(Unblocked(disk, BundleId(core), journal, base))
      ensures !r.Done? && old(Unblocked(disk, BundleId(core), journal, base)) ==>
        r == Failed(Crashed) && old(budget).Some?
      ensures old(Unblocked(disk, BundleId(core), journal, base)) ==>
              (Unblocked(disk, BundleId(core), journal, base) <==>
               !TearsProjection(old(disk), BundleId(core), journal, base, old(budget), tear))
    {
      var id := BundleId(core);
      var crashed := EnsureDirs(id);
      if crashed { return Failed(Crashed); }
      r := WriteImmutable(ProjectedJournal(id), Raw(journal));
      if !r.Done? { return; }
      r := WriteImmutable(ProjectedBase(id), Raw(base));
    }

    lemma NotBegun()
      requires Valid() && MarkerPath(Prepared) !in disk
      ensures stage == 0 && plan.None? && Clean(disk)
    {
      assert plan.Some? ==> Order(Prepared) < stage;
    }

    method TakeInventory() returns (sources: seq<nat>)
      ensures sources == Inventory(disk, SOURCE_COUNT)
    {
      sources := [];
      for i := 0 to SOURCE_COUNT
        invariant sources == Inventory(disk, i)
      {
        if Exists(disk, Source(i)) { sources := sources + [i]; }
      }
    }

    /** The part of `activateLegacyDowngrade` before the cut is durable. */
    method PrepareCut(req: Request) returns (r: Outcome, core: Core)
      requires released(req.base) && req.rootLastSequence < MAX_SAFE_INTEGER
      requires MarkerPath(Prepared) !in disk
      modifies this`disk, this`budget, this`plan, this`stage
      ensures Progressed()
      ensures old(Valid()) && old(stage) == 0 ==>
              if r.Done? then old(CutPossible(disk, req)) && On(core, 1) && plan == Some(old(PlanOf(disk, req)))
              else plan.None? && SameSources(old(disk), disk) &&
                   (old(CutPossible(disk, req)) ==> r == Failed(Crashed) && old(budget).Some?)
      ensures old(Valid()) && old(stage) == 0 && old(CutPossible(disk, req)) ==>
              if old(Tears(disk, req, budget, tear)) then !r.Done? && !CutPossible(disk, req)
              else !r.Done? ==> CutPossible(disk, req)
    {
      hide Stage, Sensible, Clean, Inventory, ValidInventory, Unblocked, TearsProjection;
      if Valid() { NotBegun(); }
      core := Core(Sha256(req.journal), Sha256(req.base), req.rootLastSequence, []);
      if |req.journal| > MAX_FILE_BYTES || |req.base| > MAX_FILE_BYTES { return Failed(Limit), core; }
      var sources := TakeInventory();
      InventoryIsExact(disk, SOURCE_COUNT);
      if JOURNAL_STORE !in sources || BASE_STORE !in sources { return Failed(RecoveryRequired), core; }
      core := Core(Sha256(req.journal), Sha256(req.base), req.rootLastSequence, sources);
      CutMeans(disk, req, core);
      r := WriteCut(core, req);
      if CutPossible(old(disk), req) && SameSources(old(disk), disk) { CutStaysPossible(old(disk), disk, req); }
    }

    /** Projection and prepared marker of a cut. */
    method WriteCut(core: Core, req: Request) returns (r: Outcome)
      requires released(req.base) && req.rootLastSequence < MAX_SAFE_INTEGER && |req.journal| <= MAX_FILE_BYTES &&
        |req.base| <= MAX_FILE_BYTES
      requires MarkerPath(Prepared) !in disk && core == CutOf(disk, req) && Source(JOURNAL_STORE) in disk &&
        Source(BASE_STORE) in disk
      modifies this`disk, this`budget, this`plan, this`stage
      ensures Progressed() && SameSources(old(disk), disk)
      ensures old(Valid()) && old(stage) == 0 ==>
              if r.Done? then old(CutPossible(disk, req)) && On(core, 1) && plan == Some(old(PlanOf(disk, req)))
              else plan.None? && (old(CutPossible(disk, req)) ==> r == Failed(Crashed) && old(budget).Some?)
      ensures old(CutPossible(disk, req)) ==>
              if old(Tears(disk, req, budget, tear))
              then !r.Done? && !Unblocked(disk, BundleId(core), req.journal, req.base)
              else Unblocked(disk, BundleId(core), req.journal, req.base)
    {
      hide Stage, Sensible, TearsProjection, Inventory;
      ghost var found, clean := disk, Valid();
      if clean { NotBegun(); }
      r := WriteProjection(core, req.journal, req.base);
      if !r.Done? { return; }
      r := WriteImmutable(MarkerPath(Prepared), Json(Marker(core, BundleId(core), Prepared)));
      if clean && r.Done? {
        ghost var p := PlanOf(found, req);
        PreparedStarts(found, disk - {MarkerPath(Prepared)}, req, released);
        assert disk == (disk - {MarkerPath(Prepared)})[MarkerPath(Prepared) := Json(MarkerOf(p, Prepared))];
        plan, stage := Some(p), 1;
      }
    }

    /** `activateLegacyDowngrade`, after the journal and the sync base were saved. */
    method Activate(req: Request) returns (r: Outcome)
      requires released(req.base) && req.rootLastSequence < MAX_SAFE_INTEGER
      modifies this`disk, this`budget, this`plan, this`stage
      ensures Progressed()
      ensures !GatesOpen(req) ==> r == Failed(if req.treeVersion != 1 then Unsafe else Busy) && disk == old(disk)
      ensures GatesOpen(req) && old(Valid()) && old(stage) == 0 ==>
              if r.Done? then old(CutPossible(disk, req)) && plan == Some(old(PlanOf(disk, req))) && stage == 3 &&
                              Handed(disk, plan.value) && LegacyReadable(disk, released)
              else if old(CutPossible(disk, req)) then r == Failed(Crashed) && old(budget).Some?
              else stage == 0 && SameSources(old(disk), disk)
      ensures GatesOpen(req) && old(Valid()) && old(stage) == 0 && old(CutPossible(disk, req)) ==>
              && (stage == 0 ==> SameSources(old(disk), disk))
              && if Tears(old(disk), req, old(budget), tear) then stage == 0 && !CutPossible(disk, req)
                 else stage == 0 ==> CutPossible(disk, req)
      ensures GatesOpen(req) && old(Valid()) && 1 <= old(stage) <= 2 ==>
              if r.Done? then stage == 3 && Handed(disk, plan.value) else r == Failed(Crashed) && old(budget).Some?
      ensures GatesOpen(req) && old(Valid()) && old(stage) >= 3 ==> r == Failed(Unsafe) && disk == old(disk)
    {
      if req.treeVersion != 1 { return Failed(Unsafe); }
      if req.intentPending || req.verifiedBaseRequired { return Failed(Busy); }
      if Valid() { if plan.Some? { AllRead(); } else { CleanReads(disk, released); } }
      hide Stage, CutPossible, ValidMarker;
      var active := ReadMarker(disk, Active);
      if active.Err? { return Failed(active.ErrorOr(Corrupt)); }
      if active.value.Some? { return Failed(Unsafe); }
      var prepared := ReadMarker(disk, Prepared);
      if prepared.Err? { return Failed(prepared.ErrorOr(Corrupt)); }
      if prepared.value.Some? {
        r := Resume();
        return;
      }
      var core;
      r, core := PrepareCut(req);
      if !r.Done? { return; }
      r := ResumePrepared(core);
      if Valid() && plan.Some? && Handed(disk, plan.value) { HandedIsReadable(disk, plan.value, released); }
    }

    /** Once a projection file was torn, no number of retries of the same cut on the
        same sources succeeds, wherever they are cut short. */
    method RetryForever(req: Request, attempts: seq<(Option<nat>, Option<string>)>) returns (rs: seq<Outcome>)
      requires released(req.base) && req.rootLastSequence < MAX_SAFE_INTEGER && GatesOpen(req)
      requires Valid() && stage == 0 && !Unblocked(disk, BundleId(CutOf(disk, req)), req.journal, req.base)
      modifies this
      ensures Valid() && stage == 0 && SameSources(old(disk), disk)
      ensures |rs| == |attempts| && forall r | r in rs :: !r.Done?
    {
      hide Stage, Clean, Sensible, CutOf, ReadMarker, MarkersAre, LegacyReadable, TearsProjection;
      ghost var id := BundleId(CutOf(disk, req));
      rs := [];
      for n := 0 to |attempts|
        invariant Valid() && stage == 0 && SameSources(old(disk), disk)
        invariant !Unblocked(disk, id, req.journal, req.base)
        invariant |rs| == n && forall r | r in rs :: !r.Done?
      {
        SameCut(old(disk), disk, req);
        budget, tear := attempts[n].0, attempts[n].1;
        var r := Activate(req);
        rs := rs + [r];
      }
    }

    /** `authorizeLegacyDowngradeCurrentImport`. */
    method Authorize(rootLastSequence: int) returns (r: Outcome)
      modifies this`disk, this`budget, this`stage
      ensures Progressed()
      ensures old(Valid()) ==>
              var ok := old(stage) >= 3 && plan.value.core.rootLastSequence <= rootLastSequence < MAX_SAFE_INTEGER &&
                        old(LegacyReadable(disk, released));
              && (r.Done? ==> ok && stage == Max(old(stage), 4))
              && (!r.Done? ==>
                stage == old(stage) && disk == old(disk) && (ok ==> r == Failed(Crashed) && old(budget).Some?))
    {
      if Valid() { if plan.Some? { AllRead(); } else { CleanReads(disk, released); } }
      var prepared, archived, active := ReadMarker(disk, Prepared), ReadMarker(disk, Archived),
        ReadMarker(disk, Active);
      var existing := ReadMarker(disk, CurrentImport);
      hide ReadMarker;
      if prepared.Err? { return Failed(prepared.ErrorOr(Corrupt)); }
      if archived.Err? { return Failed(archived.ErrorOr(Corrupt)); }
      if active.Err? { return Failed(active.ErrorOr(Corrupt)); }
      if existing.Err? { return Failed(existing.ErrorOr(Corrupt)); }
      if prepared.value.None? || archived.value.None? || active.value.None? ||
         !SameCore(archived.value, prepared.value) || !SameCore(active.value, prepared.value) {
        return Failed(RecoveryRequired);
      }
      var core := active.value.value.core;
      if !(0 <= rootLastSequence < MAX_SAFE_INTEGER) || rootLastSequence < core.rootLastSequence {
        return Failed(RecoveryRequired);
      }
      if !LegacyReadable(disk, released) || !InventoryHolds(disk, core, LegacyActive) {
        return Failed(RecoveryRequired);
      }
      if existing.value.Some? {
        if !SameCore(existing.value, active.value) { return Failed(Corrupt); }
        return Done;
      }
      r := WriteMarker(core, CurrentImport);
    }

    /** `completeLegacyDowngradeCurrentImport`. */
    method Complete() returns (r: Outcome)
      modifies this`disk, this`budget, this`stage
      ensures Progressed()
      ensures old(Valid()) ==>
              var ok := old(stage) >= 4 && Source(JOURNAL_STORE) in old(disk) && Source(BASE_STORE) in old(disk);
              && (r.Done? ==> ok && stage == 5)
              && (!r.Done? ==>
                stage == old(stage) && disk == old(disk) && (ok ==> r == Failed(Crashed) && old(budget).Some?))
    {
      if Valid() { if plan.Some? { AllRead(); } else { CleanReads(disk, released); } }
      var active, currentImport := ReadMarker(disk, Active), ReadMarker(disk, CurrentImport);
      var existing := ReadMarker(disk, CurrentActive);
      if active.Err? { return Failed(active.ErrorOr(Corrupt)); }
      if currentImport.Err? { return Failed(currentImport.ErrorOr(Corrupt)); }
      if active.value.None? || currentImport.value.None? || !SameCore(currentImport.value, active.value) {
        return Failed(RecoveryRequired);
      }
      if !Exists(disk, Source(JOURNAL_STORE)) || !Exists(disk, Source(BASE_STORE)) { return Failed(RecoveryRequired); }
      if existing.Err? { return Failed(existing.ErrorOr(Corrupt)); }
      if existing.value.Some? {
        if !SameCore(existing.value, active.value) { return Failed(Corrupt); }
        return Done;
      }
      r := WriteMarker(active.value.value.core, CurrentActive);
    }

    /** The current client touches the sources only after its stores opened. */
    method CurrentClient(sources: map<nat, Content>) returns (admitted: bool)
      modifies this`disk
      ensures Progressed() && (!admitted ==> disk == old(disk))
      ensures old(Valid()) ==> (admitted <==> stage == 0 || (stage >= 4 && old(LegacyReadable(disk, released))))
    {
      hide LegacyReadable, Stage, AssertReadable;
      if Valid() {
        if plan.Some? { StoresAreFenced(disk, plan.value, stage, released); } else { CleanReads(disk, released); }
      }
      ClientKeepsClean(disk, sources);
      admitted := AssertReadable(disk, released).Ok?;
      if admitted {
        if Valid() && plan.Some? { ClientKeepsStage(disk, plan.value, stage, sources); }
        disk := WithSources(disk, sources);
      }
    }

    /** The released client owns the sources once the downgrade is active. */
    method LegacyClient(sources: map<nat, Content>) returns (admitted: bool)
      modifies this`disk
      ensures Progressed() && (!admitted ==> disk == old(disk))
      ensures old(Valid()) ==> (admitted <==> stage >= 3)
    {
      if Valid() { if plan.Some? { AllRead(); } else { CleanReads(disk, released); } }
      var active := ReadMarker(disk, Active);
      ClientKeepsClean(disk, sources);
      admitted := active.Ok? && active.value.Some?;
      if admitted {
        if Valid() && plan.Some? { ClientKeepsStage(disk, plan.value, stage, sources); }
        disk := WithSources(disk, sources);
      }
    }

    method Step(e: Event)
      requires e.op.DoActivate? ==> released(e.op.req.base) && e.op.req.rootLastSequence < MAX_SAFE_INTEGER
      modifies this
      ensures Keeps(old(disk), disk)
      ensures old(Valid()) ==> Valid() && stage >= old(stage) && (old(plan).Some? ==> plan == old(plan))
    {
      hide Stage, Clean, Sensible;
      budget, tear := e.budget, e.tear;
      var r, admitted;
      match e.op
      case DoActivate(req) => r := Activate(req);
      case DoResume => r := Resume();
      case DoAuthorize(root) => r := Authorize(root);
      case DoComplete => r := Complete();
      case CurrentClientWrites(sources) => admitted := CurrentClient(sources);
      case LegacyClientWrites(sources) => admitted := LegacyClient(sources);
    }

    /** Every run from a clean disk, with operations in any order and crashes
        anywhere, stays on the disks of the protocol: the markers are a prefix of
        the phases, the first prepared cut is the only one, and what was archived,
        projected or marked is never changed again. */
    method Run(events: seq<Event>)
      requires forall e | e in events && e.op.DoActivate? ::
                 released(e.op.req.base) && e.op.req.rootLastSequence < MAX_SAFE_INTEGER
      modifies this
      ensures Keeps(old(disk), disk)
      ensures old(Valid()) ==> Valid() && stage >= old(stage) && (old(plan).Some? ==> plan == old(plan))
      ensures old(Valid()) ==> Inspect(disk) == Ok(Name(stage))
      ensures old(Valid()) ==> AssertReadable(disk, released) ==
                               if stage == 0 then Ok(false)
                               else if stage >= 4 && LegacyReadable(disk, released) then Ok(true)
                               else Err(RecoveryRequired)
      ensures old(Valid()) && plan.Some? ==> forall i | i in plan.value.origin ::
                if stage >= 2 then InArchive(disk, plan.value, i)
                else AtSource(disk, plan.value, i) != (InArchive(disk, plan.value, i) && Source(i) !in disk)
    {
      hide Stage, Clean, Sensible, ReadPhases, ReadMarker, InArchive, AtSource, LegacyReadable, Inspect,
           AssertReadable, Name;
      for n := 0 to |events|
        invariant Keeps(old(disk), disk)
        invariant old(Valid()) ==> Valid() && stage >= old(stage) && (old(plan).Some? ==> plan == old(plan))
      {
        assert events[n] in events;
        Step(events[n]);
      }
      if Valid() { Meaning(); }
    }

    /** What the markers and the files of a valid disk say. */
    lemma Meaning()
      requires Valid()
      ensures Inspect(disk) == Ok(Name(stage))
      ensures AssertReadable(disk, released) ==
              if stage == 0 then Ok(false)
              else if stage >= 4 && LegacyReadable(disk, released) then Ok(true) else Err(RecoveryRequired)
      ensures plan.Some? ==> forall i | i in plan.value.origin ::
                if stage >= 2 then InArchive(disk, plan.value, i)
                else AtSource(disk, plan.value, i) != (InArchive(disk, plan.value, i) && Source(i) !in disk)
    {
      hide Clean, Sensible, ReadPhases, ReadMarker, LegacyReadable, Inspect, AssertReadable, MarkersAre, ProjectionKept;
      match plan
      case None => CleanReads(disk, released);
      case Some(p) =>
        InspectionIsExact(disk, p, stage, released);
        StoresAreFenced(disk, p, stage, released);
    }
  }

  /** A disk with both stores and nothing else. */
  function BareDisk(): Disk {
    map[Source(JOURNAL_STORE) := Folder(0), Source(BASE_STORE) := Folder(0)]
  }

  /** An activation that dies while it writes the journal's projection, and the
      retries after it, all refused. */
  method StuckDowngrade(attempts: seq<(Option<nat>, Option<string>)>)
    returns (v: Vault, first: Outcome, rs: seq<Outcome>)
    ensures first == Failed(Crashed)
    ensures |rs| == |attempts| && forall r | r in rs :: !r.Done?
    ensures v.Valid() && v.stage == 0
  {
    hide Stage, Inventory, LegacyReadable, Handed, Keeps, Clean, CutPossible, Tears, Unblocked, CutOf, BareDisk;
    var req := Request("journal", "base", 0, 1, false, false);
    var d := BareDisk();
    BareCut(d, req);
    v := new Vault(d, text => true);
    v.budget, v.tear := Some(3), Some("jour");
    first := v.Activate(req);
    CutStaysPossible(d, v.disk, req);
    rs := v.RetryForever(req, attempts);
  }

  lemma BareCut(d: Disk, req: Request)
    requires d == BareDisk() && |req.journal| <= MAX_FILE_BYTES && |req.base| <= MAX_FILE_BYTES
    ensures Clean(d) && CutPossible(d, req)
    ensures forall tear | tear != req.journal :: Tears(d, req, Some(3), Some(tear))
  {}
}
