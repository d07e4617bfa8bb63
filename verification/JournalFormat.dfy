/** The legacy text journal: checkpoints sealed by a checksum, forward-only
    replay, and its import into the pending-state index. */
module JournalFormat {
  import opened Common
  import opened JournalKeys
  import opened JournalIndices
  import Crc32

  const ROW_LIMIT := 128 * 1024

  /** The rows a line can hold; foreign schemas and non-objects are kept apart. */
  datatype Row =
    | MetaRow(generation: nat, nextId: nat)
    | SealRow(generation: nat, records: nat, bytes: nat, crc: bv32)
    | AckRow(path: string, throughId: nat)
    | MutationRow(entry: Entry, numbered: bool)
    | ForeignRow
    | MalformedRow

  /** The JSON and UTF-8 library the journal is written with. */
  datatype Library = Library(parse: string -> Option<Row>, render: Row -> string, utf8: string -> seq<bv8>)

  /** Rows a journal writer produces; counts of rows and bytes are safe integers. */
  predicate Writable(r: Row) {
    match r
    case MetaRow(generation, nextId) => generation <= MAX_SAFE_INTEGER && nextId <= MAX_SAFE_INTEGER
    case SealRow(generation, records, bytes, _) =>
      generation <= MAX_SAFE_INTEGER && records <= MAX_SAFE_INTEGER && bytes <= MAX_SAFE_INTEGER
    case AckRow(p, throughId) => ValidWatermark(p, throughId)
    case MutationRow(e, numbered) => ValidEntry(e) && numbered
    case ForeignRow => false
    case MalformedRow => false
  }

  /** Rendered rows are single non-blank lines of bounded length that parse back,
      and no proper beginning of one parses. */
  ghost predicate Faithful(lib: Library) {
    forall r | Writable(r) ::
      && lib.parse(lib.render(r)) == Some(r)
      && 0 < |lib.render(r)| <= ROW_LIMIT && '\n' !in lib.render(r) && !Blank(lib.render(r))
      && forall k | 0 < k < |lib.render(r)| :: lib.parse(lib.render(r)[..k]) == None && !Blank(lib.render(r)[..k])
  }

  predicate IsSpace(c: char) {
    var u := c as int;
    9 <= u <= 13 || u == 32 || u == 0xa0 || u == 0x1680 || 0x2000 <= u <= 0x200a ||
    u == 0x2028 || u == 0x2029 || u == 0x202f || u == 0x205f || u == 0x3000 || u == 0xfeff
  }

  /** `!line.trim()`. */
  predicate Blank(s: string) {
    s == [] || (IsSpace(s[0]) && Blank(s[1..]))
  }

  // ----------------------------------------------------------------- replay

  datatype Sum = Sum(crc: bv32, bytes: nat)

  const FRESH_SUM := Sum(0xffff_ffff, 0)

  function Fed(lib: Library, s: Sum, text: string): Sum {
    Sum(Crc32.Run(s.crc, lib.utf8(text)), s.bytes + |lib.utf8(text)|)
  }

  function Digest(s: Sum): bv32 {
    Crc32.Xor(s.crc, 0xffff_ffff)
  }

  datatype Identity = Identity(generation: nat, records: nat, bytes: nat, crc: bv32)

  datatype Scan = Scan(
    loaded: seq<Entry>, acks: Acks, nextId: nat, generation: nat, recordsRead: nat, snapshotRows: nat,
    sawHeader: bool, sawSeal: bool, torn: bool, identity: Option<Identity>, sum: Sum)

  const START := Scan([], map[], 1, 0, 0, 0, false, false, false, None, FRESH_SUM)

  function ConsumeRow(lib: Library, s: Scan, row: Row, rawLine: string): Result<Scan, Fault> {
    match row
    case MalformedRow => Err(Corrupt)
    case ForeignRow => Err(UnknownSchema)
    case MetaRow(generation, nextId) =>
      if s.recordsRead != 0 || s.sawHeader || !(1 <= generation <= MAX_SAFE_INTEGER && 1 <= nextId <= MAX_SAFE_INTEGER)
      then Err(Corrupt)
      else Ok(s.(generation := generation, nextId := nextId, sawHeader := true,
                 sum := Fed(lib, s.sum, rawLine), recordsRead := s.recordsRead + 1))
    case SealRow(generation, records, bytes, crc) =>
      if !s.sawHeader || s.sawSeal || generation != s.generation || records != s.snapshotRows ||
         bytes != s.sum.bytes || crc != Digest(s.sum)
      then Err(Corrupt)
      else Ok(s.(sawSeal := true, identity := Some(Identity(generation, records, bytes, crc)),
                 recordsRead := s.recordsRead + 1))
    case AckRow(p, throughId) =>
      if (s.sawHeader && !s.sawSeal) || !ValidWatermark(p, throughId) then Err(Corrupt)
      else Ok(s.(acks := WithAck(s.acks, p, throughId), nextId := Max(s.nextId, throughId + 1),
                 recordsRead := s.recordsRead + 1))
    case MutationRow(e, numbered) =>
      var entry := if numbered || s.sawHeader then e else e.(id := s.nextId);
      if (!numbered && s.sawHeader) || !ValidEntry(entry) || (s.sawSeal && entry.id < s.nextId) then Err(Corrupt)
      else
        var next := s.(loaded := s.loaded + [entry], nextId := Max(s.nextId, entry.id + 1),
                       recordsRead := s.recordsRead + 1);
        Ok(if s.sawHeader && !s.sawSeal
           then next.(snapshotRows := s.snapshotRows + 1, sum := Fed(lib, s.sum, rawLine))
           else next)
  }

  datatype Line = Line(text: string, terminated: bool)

  function Consume(lib: Library, s: Scan, line: Line): Result<Scan, Fault> {
    var rawLine := if line.terminated then line.text + "\n" else line.text;
    if |line.text| > ROW_LIMIT then Err(Limit)
    else if Blank(line.text) then
      Ok(if s.sawHeader && !s.sawSeal then s.(sum := Fed(lib, s.sum, rawLine)) else s)
    else
      match lib.parse(line.text)
      case None => if line.terminated then Err(Corrupt) else Ok(s.(torn := true))
      case Some(row) => ConsumeRow(lib, s, row, rawLine)
  }

  /** Index of the first newline, or the length. */
  function IndexOfNewline(raw: string): (n: nat)
    ensures n <= |raw| && '\n' !in raw[..n] && (n < |raw| ==> raw[n] == '\n')
  {
    if raw == [] || raw[0] == '\n' then 0 else 1 + IndexOfNewline(raw[1..])
  }

  function Lines(raw: string): seq<Line> {
    if raw == [] then []
    else
      var n := IndexOfNewline(raw);
      if n < |raw| then [Line(raw[..n], true)] + Lines(raw[n + 1..]) else [Line(raw, false)]
  }

  function ScanLines(lib: Library, s: Scan, lines: seq<Line>): Result<Scan, Fault>
    decreases |lines|
  {
    if lines == [] then Ok(s)
    else
      var next := Consume(lib, s, lines[0]);
      if next.Err? then next else ScanLines(lib, next.value, lines[1..])
  }

  datatype Parsed = Parsed(
    entries: seq<Entry>, mutations: seq<Entry>, acknowledgements: Acks, nextId: nat,
    generation: nat, recordsRead: nat, tornTail: bool, identity: Option<Identity>)

  /** The compatibility view of one mutation: what its endpoints still need. */
  function Projected(e: Entry, a: Acks): seq<Entry> {
    var destination := e.id > AckedThrough(a, e.path);
    if e.action.Renamed? && e.oldPath.Some? then
      var source := e.id > AckedThrough(a, e.oldPath.value);
      if source && destination then [e]
      else if source then [Entry(e.id, Deleted, e.oldPath.value, None, Metadata(e.meta.ts, None, None, None))]
      else if destination then [Entry(e.id, Modified, e.path, None, Metadata(e.meta.ts, None, None, None))]
      else []
    else if destination then [e] else []
  }

  function Projection(loaded: seq<Entry>, a: Acks): seq<Entry> {
    if loaded == [] then []
    else Projection(loaded[..|loaded| - 1], a) + Projected(loaded[|loaded| - 1], a)
  }

  function Finish(s: Scan): Result<Parsed, Fault> {
    if s.sawHeader && !s.sawSeal then Err(IncompleteCheckpoint)
    else Ok(Parsed(Projection(s.loaded, s.acks), s.loaded, s.acks, s.nextId, s.generation,
                   s.recordsRead, s.torn, s.identity))
  }

  function Parse(lib: Library, raw: string): Result<Parsed, Fault> {
    var s := ScanLines(lib, START, Lines(raw));
    if s.Err? then Err(s.error) else Finish(s.value)
  }

  /** A text's first line, and what follows it. */
  lemma FirstLine(raw: string, offset: nat)
    requires offset < |raw|
    ensures var newline := offset + IndexOfNewline(raw[offset..]);
      var terminated := newline < |raw|;
      var end := if terminated then newline + 1 else newline;
      Lines(raw[offset..]) == [Line(raw[offset..newline], terminated)] + Lines(raw[end..])
  {
    hide IndexOfNewline;
    var rest := raw[offset..];
    var n := IndexOfNewline(rest);
    assert rest[..n] == raw[offset..offset + n];
    if n < |rest| {
      assert rest[n + 1..] == raw[offset + n + 1..];
    } else {
      assert rest[..n] == rest && raw[offset + n..] == [];
    }
  }

  lemma ScanOne(lib: Library, s: Scan, line: Line, lines: seq<Line>)
    ensures ScanLines(lib, s, [line] + lines)
         == var next := Consume(lib, s, line); if next.Err? then next else ScanLines(lib, next.value, lines)
  {
    hide Consume;
    assert ([line] + lines)[1..] == lines;
  }

  /** The offset loop of `parseJournalSteps`. */
  method ScanText(lib: Library, raw: string) returns (r: Result<Scan, Fault>)
    ensures r == ScanLines(lib, START, Lines(raw))
  {
    hide Consume, Lines, ScanLines;
    var s := START;
    var offset := 0;
    assert raw[0..] == raw;
    while offset < |raw|
      invariant 0 <= offset <= |raw|
      invariant ScanLines(lib, s, Lines(raw[offset..])) == ScanLines(lib, START, Lines(raw))
    {
      FirstLine(raw, offset);
      var newline := offset + IndexOfNewline(raw[offset..]);
      var terminated := newline < |raw|;
      var line := Line(raw[offset..newline], terminated);
      offset := if terminated then newline + 1 else newline;
      ScanOne(lib, s, line, Lines(raw[offset..]));
      var next := Consume(lib, s, line);
      if next.Err? { return next; }
      s := next.value;
    }
    NoMoreLines(lib, s, raw[offset..]);
    return Ok(s);
  }

  lemma NoMoreLines(lib: Library, s: Scan, rest: string)
    requires rest == []
    ensures ScanLines(lib, s, Lines(rest)) == Ok(s)
  {
  }

  /** `parseJournalSteps`: the line scan, then the projection of the loaded rows. */
  method ParseJournal(lib: Library, raw: string) returns (r: Result<Parsed, Fault>)
    ensures r == Parse(lib, raw)
  {
    hide Consume, Projected, Lines, ScanLines;
    var scanned := ScanText(lib, raw);
    if scanned.Err? { return Err(scanned.error); }
    var s := scanned.value;
    if s.sawHeader && !s.sawSeal { return Err(IncompleteCheckpoint); }
    var entries := [];
    for i := 0 to |s.loaded|
      invariant entries == Projection(s.loaded[..i], s.acks)
    {
      assert s.loaded[..i + 1][..i] == s.loaded[..i];
      entries := entries + Projected(s.loaded[i], s.acks);
    }
    assert s.loaded[..|s.loaded|] == s.loaded;
    return Ok(Parsed(entries, s.loaded, s.acks, s.nextId, s.generation, s.recordsRead, s.torn, s.identity));
  }

  // ------------------------------------------------------------- checkpoints

  /** `encodeJournalCheckpoint`. */
  method EncodeCheckpoint(lib: Library, entries: seq<Entry>, nextId: nat, generation: nat)
    returns (r: Result<string, Fault>)
    ensures r.Ok? <==>
            && 1 <= nextId <= MAX_SAFE_INTEGER && 1 <= generation <= MAX_SAFE_INTEGER
            && forall e | e in entries :: ValidEntry(e) && e.id < nextId
    ensures r.Ok? ==> r.value == CheckpointText(lib, entries, nextId, generation)
    ensures r.Ok? && Faithful(lib) && Sizable(lib, entries, nextId, generation) ==> exists id: Identity ::
              Parse(lib, r.value) ==
                Ok(Parsed(entries, entries, map[], nextId, generation, |entries| + 2, false, Some(id)))
  {
    hide Fed, Digest, Faithful, Parse, ValidEntry, Sizable;
    if !(1 <= nextId <= MAX_SAFE_INTEGER && 1 <= generation <= MAX_SAFE_INTEGER) { return Err(Corrupt); }
    var text := lib.render(MetaRow(generation, nextId)) + "\n";
    var sum := Fed(lib, FRESH_SUM, text);
    for i := 0 to |entries|
      invariant forall e | e in entries[..i] :: ValidEntry(e) && e.id < nextId
      invariant text == HeaderText(lib, nextId, generation) + BodyText(lib, entries[..i])
      invariant sum == BodySum(lib, entries[..i], nextId, generation)
    {
      if !ValidEntry(entries[i]) || entries[i].id >= nextId {
        assert entries[i] in entries;
        return Err(Corrupt);
      }
      assert entries[..i + 1][..i] == entries[..i];
      var line := lib.render(MutationRow(entries[i], true)) + "\n";
      sum := Fed(lib, sum, line);
      text := text + line;
    }
    assert entries[..|entries|] == entries;
    text := text + (lib.render(SealRow(generation, |entries|, sum.bytes, Digest(sum))) + "\n");
    if Faithful(lib) && Sizable(lib, entries, nextId, generation) {
      CheckpointRoundTrip(lib, entries, nextId, generation);
    }
    return Ok(text);
  }

  function HeaderText(lib: Library, nextId: nat, generation: nat): string {
    lib.render(MetaRow(generation, nextId)) + "\n"
  }

  function BodyText(lib: Library, entries: seq<Entry>): string {
    if entries == [] then ""
    else BodyText(lib, entries[..|entries| - 1]) + (lib.render(MutationRow(entries[|entries| - 1], true)) + "\n")
  }

  function BodySum(lib: Library, entries: seq<Entry>, nextId: nat, generation: nat): Sum {
    if entries == [] then Fed(lib, FRESH_SUM, HeaderText(lib, nextId, generation))
    else Fed(lib, BodySum(lib, entries[..|entries| - 1], nextId, generation),
             lib.render(MutationRow(entries[|entries| - 1], true)) + "\n")
  }

  function SealOf(lib: Library, entries: seq<Entry>, nextId: nat, generation: nat): Row {
    var sum := BodySum(lib, entries, nextId, generation);
    SealRow(generation, |entries|, sum.bytes, Digest(sum))
  }

  /** The seal's counts are exact JavaScript numbers. */
  predicate Sizable(lib: Library, entries: seq<Entry>, nextId: nat, generation: nat) {
    |entries| <= MAX_SAFE_INTEGER && BodySum(lib, entries, nextId, generation).bytes <= MAX_SAFE_INTEGER
  }

  function CheckpointText(lib: Library, entries: seq<Entry>, nextId: nat, generation: nat): string {
    HeaderText(lib, nextId, generation) + BodyText(lib, entries) +
    (lib.render(SealOf(lib, entries, nextId, generation)) + "\n")
  }

  // Text that ends a line composes.

  predicate Complete(raw: string) {
    raw == [] || raw[|raw| - 1] == '\n'
  }

  lemma {:induction false} LinesCompose(a: string, b: string)
    requires Complete(a)
    ensures Lines(a + b) == Lines(a) + Lines(b)
    decreases |a|
  {
    hide Lines, IndexOfNewline;
    if a == [] {
      NoLines();
      assert a + b == b;
    } else {
      var n := FirstNewline(a);
      assert (a + b)[..n] == a[..n] && (a + b)[n + 1..] == a[n + 1..] + b;
      NewlineIsFirst(a + b, n);
      LinesCompose(a[n + 1..], b);
      SplitAtNewline(a, n);
      SplitAtNewline(a + b, n);
    }
  }

  lemma NoLines()
    ensures Lines("") == []
  {}

  lemma FirstNewline(raw: string) returns (n: nat)
    requires Complete(raw) && raw != []
    ensures n == IndexOfNewline(raw) < |raw| && raw[n] == '\n' && '\n' !in raw[..n]
  {
    n := IndexOfNewline(raw);
  }

  lemma SplitAtNewline(raw: string, n: nat)
    requires n < |raw| && IndexOfNewline(raw) == n
    ensures Lines(raw) == [Line(raw[..n], true)] + Lines(raw[n + 1..])
  {
    hide IndexOfNewline;
  }

  lemma {:induction false} NewlineIsFirst(raw: string, n: nat)
    requires n < |raw| && raw[n] == '\n' && '\n' !in raw[..n]
    ensures IndexOfNewline(raw) == n
  {
    if n > 0 {
      assert raw[0] in raw[..n];
      assert forall c | c in raw[1..][..n - 1] :: c in raw[..n];
      NewlineIsFirst(raw[1..], n - 1);
    }
  }

  lemma OneLine(text: string)
    requires '\n' !in text
    ensures Lines(text + "\n") == [Line(text, true)]
  {
    var raw := text + "\n";
    assert raw[..|text|] == text;
    NewlineIsFirst(raw, |text|);
    assert raw[|text| + 1..] == [];
  }

  lemma {:induction false} ScanCompose(lib: Library, s: Scan, a: seq<Line>, b: seq<Line>)
    requires ScanLines(lib, s, a).Ok?
    ensures ScanLines(lib, s, a + b) == ScanLines(lib, ScanLines(lib, s, a).value, b)
    decreases |a|
  {
    if a == [] {
      assert a + b == b;
    } else {
      assert (a + b)[1..] == a[1..] + b;
      ScanCompose(lib, Consume(lib, s, a[0]).value, a[1..], b);
    }
  }

  /** One more rendered row is one more consumed row. */
  lemma ScanRow(lib: Library, raw: string, row: Row)
    requires Faithful(lib) && Writable(row) && Complete(raw) && ScanLines(lib, START, Lines(raw)).Ok?
    ensures Complete(raw + (lib.render(row) + "\n"))
    ensures ScanLines(lib, START, Lines(raw + (lib.render(row) + "\n"))) ==
            ConsumeRow(lib, ScanLines(lib, START, Lines(raw)).value, row, lib.render(row) + "\n")
  {
    var text := lib.render(row);
    LinesCompose(raw, text + "\n");
    OneLine(text);
    ScanCompose(lib, START, Lines(raw), [Line(text, true)]);
  }

  lemma EmptyScan(lib: Library)
    ensures Complete("") && ScanLines(lib, START, Lines("")) == Ok(START)
  {}

  /** The scan after the header and the first `n` rows of a checkpoint. */
  lemma {:induction false} ScanBody(lib: Library, entries: seq<Entry>, nextId: nat, generation: nat)
    requires Faithful(lib) && 1 <= nextId <= MAX_SAFE_INTEGER && 1 <= generation <= MAX_SAFE_INTEGER
    requires forall e | e in entries :: ValidEntry(e) && e.id < nextId
    ensures Complete(HeaderText(lib, nextId, generation) + BodyText(lib, entries))
    ensures ScanLines(lib, START, Lines(HeaderText(lib, nextId, generation) + BodyText(lib, entries))) ==
            Ok(Scan(entries, map[], nextId, generation, |entries| + 1, |entries|, true, false, false, None,
                    BodySum(lib, entries, nextId, generation)))
  {
    hide Faithful, Lines, ScanLines, Fed, Complete, ValidEntry;
    var header := HeaderText(lib, nextId, generation);
    if entries == [] {
      EmptyScan(lib);
      ScanRow(lib, "", MetaRow(generation, nextId));
      assert "" + header == header == header + BodyText(lib, entries);
    } else {
      var before, e := entries[..|entries| - 1], entries[|entries| - 1];
      assert e in entries && entries == before + [e];
      ScanBody(lib, before, nextId, generation);
      ScanRow(lib, header + BodyText(lib, before), MutationRow(e, true));
      assert header + BodyText(lib, entries) ==
             header + BodyText(lib, before) + (lib.render(MutationRow(e, true)) + "\n");
    }
  }

  lemma {:induction false} NothingAcknowledged(entries: seq<Entry>)
    requires forall e | e in entries :: ValidEntry(e)
    ensures Projection(entries, map[]) == entries
  {
    if entries != [] {
      assert entries[|entries| - 1] in entries;
      NothingAcknowledged(entries[..|entries| - 1]);
    }
  }

  /** Parsing an encoded checkpoint returns its entries, counter and generation
      under a matching seal. */
  lemma CheckpointRoundTrip(lib: Library, entries: seq<Entry>, nextId: nat, generation: nat)
    requires Faithful(lib) && 1 <= nextId <= MAX_SAFE_INTEGER && 1 <= generation <= MAX_SAFE_INTEGER
    requires (forall e | e in entries :: ValidEntry(e) && e.id < nextId) && Sizable(lib, entries, nextId, generation)
    ensures exists id: Identity ::
              Parse(lib, CheckpointText(lib, entries, nextId, generation)) ==
              Ok(Parsed(entries, entries, map[], nextId, generation, |entries| + 2, false, Some(id)))
  {
    ScanBody(lib, entries, nextId, generation);
    ScanRow(lib, HeaderText(lib, nextId, generation) + BodyText(lib, entries),
      SealOf(lib, entries, nextId, generation));
    NothingAcknowledged(entries);
    var sum := BodySum(lib, entries, nextId, generation);
    var id := Identity(generation, |entries|, sum.bytes, Digest(sum));
    assert Parse(lib, CheckpointText(lib, entries, nextId, generation)) ==
           Ok(Parsed(entries, entries, map[], nextId, generation, |entries| + 2, false, Some(id)));
  }

  /** An append cut short changes nothing but the torn-tail flag. */
  lemma TornAppendIsIgnored(lib: Library, raw: string, row: Row, k: nat)
    requires Faithful(lib) && Writable(row) && Complete(raw) && 0 < k < |lib.render(row)|
    requires Parse(lib, raw).Ok?
    ensures Parse(lib, raw + lib.render(row)[..k]) == Ok(Parse(lib, raw).value.(tornTail := true))
  {
    var part := lib.render(row)[..k];
    LinesCompose(raw, part);
    assert forall c | c in part :: c in lib.render(row);
    assert Lines(part) == [Line(part, false)];
    ScanCompose(lib, START, Lines(raw), [Line(part, false)]);
  }

  // ------------------------------------------------- what every parse promises

  /** Rows are valid and, like every watermark, below the next generation. */
  ghost predicate Bounded(loaded: seq<Entry>, a: Acks, nextId: nat) {
    && 1 <= nextId <= MAX_SAFE_INTEGER
    && (forall e | e in loaded :: ValidEntry(e) && e.id < nextId)
    && (forall p | p in a :: ValidWatermark(p, a[p]) && a[p] < nextId)
  }

  ghost predicate Orderly(s: Scan) {
    Bounded(s.loaded, s.acks, s.nextId) && (s.recordsRead == 0 ==> s.loaded == [] && s.acks == map[])
  }

  lemma ConsumeIsOrderly(lib: Library, s: Scan, line: Line)
    requires Orderly(s) && Consume(lib, s, line).Ok?
    ensures Orderly(Consume(lib, s, line).value)
  {
    hide ConsumeRow, Bounded, Blank, Fed;
    var rawLine := if line.terminated then line.text + "\n" else line.text;
    if lib.parse(line.text).Some? && !Blank(line.text) && |line.text| <= ROW_LIMIT {
      RowIsOrderly(lib, s, lib.parse(line.text).value, rawLine);
    }
  }

  lemma RowIsOrderly(lib: Library, s: Scan, row: Row, rawLine: string)
    requires Orderly(s) && ConsumeRow(lib, s, row, rawLine).Ok?
    ensures Orderly(ConsumeRow(lib, s, row, rawLine).value)
  {
    hide SafePath, ValidMetadata, Fed, Digest;
    var next := ConsumeRow(lib, s, row, rawLine).value;
    if row.MutationRow? {
      var entry := next.loaded[|s.loaded|];
      assert next.loaded == s.loaded + [entry];
      assert ValidEntry(entry);
    }
  }

  lemma {:induction false} ScanIsOrderly(lib: Library, s: Scan, lines: seq<Line>)
    requires Orderly(s) && ScanLines(lib, s, lines).Ok?
    ensures Orderly(ScanLines(lib, s, lines).value)
    decreases |lines|
  {
    hide Orderly, Consume;
    if lines != [] {
      ConsumeIsOrderly(lib, s, lines[0]);
      ScanIsOrderly(lib, Consume(lib, s, lines[0]).value, lines[1..]);
    }
  }

  lemma ParseIsBounded(lib: Library, raw: string)
    requires Parse(lib, raw).Ok?
    ensures var r := Parse(lib, raw).value; Bounded(r.mutations, r.acknowledgements, r.nextId)
    ensures var r := Parse(lib, raw).value; r.entries == Projection(r.mutations, r.acknowledgements)
  {
    hide ScanLines, Consume, Projection;
    assert Orderly(START);
    ScanIsOrderly(lib, START, Lines(raw));
  }
}
