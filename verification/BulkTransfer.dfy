/** The upload recursion and the download cursor loop of the bulk transport,
    against servers that may answer anything. */
module BulkTransfer {
  import opened Common
  import opened BulkCodec
  import opened BulkPlanner

  const MAX_OBJECTS := 256
  const ATTEMPTS := 3
  const ACK_MAGIC: Bytes := [0x4f, 0x42, 0x4b, 0x31]
  const STORED := 0
  const ALREADY_PRESENT := 1
  const BAD_HASH := 2
  const REJECTED_LIMIT := 3
  const RETRYABLE := 4

  // -------------------------------------------------------------------- uploads

  /** An answer to a posted pack. `Failed` is any other status or a lost lane. */
  datatype PutAnswer = Acked(body: Bytes) | Gone | TooLarge | Failed

  /** `decodeBulkUploadAck`. */
  function DecodeAck(body: Bytes, expected: nat): Option<Bytes> {
    if |body| < 8 || body[..4] != ACK_MAGIC || ReadU32(body, 4) != expected || |body| != 8 + expected then None
    else if exists i | 8 <= i < |body| :: body[i] > RETRYABLE then None
    else Some(body[8..])
  }

  datatype Outcome = Done | Legacy | Halve | Stop

  /** What one acknowledgement means for its records; `None` asks for another attempt. */
  function Judge(statuses: Option<Bytes>): Option<Outcome> {
    if statuses.None? then Some(Stop)
    else if BAD_HASH in statuses.value || REJECTED_LIMIT in statuses.value then Some(Stop)
    else if RETRYABLE in statuses.value then None
    else Some(Done)
  }

  /** Limits may be given up or lowered, never raised. */
  predicate Lowered(before: Option<Limits>, after: Option<Limits>) {
    after.Some? ==>
      before.Some? && after.value == before.value.(maxBytes := after.value.maxBytes) &&
        after.value.maxBytes <= before.value.maxBytes
  }

  /** No pack larger than the larger of the two halves. */
  function CappedFor(before: Option<Limits>, first: seq<Record>, second: seq<Record>): Option<Limits> {
    if before.None? then None
    else
      var cap := PACK_HEADER_BYTES + Max(Payload(first), Payload(second));
      Some(before.value.(maxBytes := Min(before.value.maxBytes, cap)))
  }

  /** A clean acknowledgement: one status per record, each stored or already present. */
  ghost predicate Confirms(answer: PutAnswer, count: nat) {
    && answer.Acked? && |answer.body| == 8 + count && answer.body[..4] == ACK_MAGIC && ReadU32(answer.body, 4) == count
    && forall i | 8 <= i < |answer.body| :: answer.body[i] == STORED || answer.body[i] == ALREADY_PRESENT
  }

  /** Some answer says that the record is stored. */
  ghost predicate Vouched(server: (nat, seq<Record>) -> PutAnswer, single: (nat, Record) -> bool, r: Record) {
    || (exists n: nat :: single(n, r))
    || (exists n: nat, rs: seq<Record> :: r in rs && Confirms(server(n, rs), |rs|))
  }

  ghost predicate AllVouched(server: (nat, seq<Record>) -> PutAnswer, single: (nat, Record) -> bool, rs: seq<Record>) {
    forall i | 0 <= i < |rs| :: Vouched(server, single, rs[i])
  }

  /** A server that refuses packs only for their size or for being unknown, and
      stores what it accepts. */
  ghost predicate Benign(server: (nat, seq<Record>) -> PutAnswer, single: (nat, Record) -> bool) {
    && (forall n, r :: single(n, r))
    && (forall n, rs :: var a := server(n, rs);
          a.Gone? || a.TooLarge? || (a.Acked? && Judge(DecodeAck(a.body, |rs|)) == Some(Done)))
  }

  class Uploader {
    const server: (nat, seq<Record>) -> PutAnswer
    const single: (nat, Record) -> bool
    var clock: nat
    var bulkLimits: Option<Limits>
    /** Records whose storage has been acknowledged, in order. */
    var delivered: seq<Record>
    /** Packs encoded and requests posted for them. */
    var packs: nat
    var posts: nat

    constructor (server: (nat, seq<Record>) -> PutAnswer, single: (nat, Record) -> bool, limits: Option<Limits>)
      ensures delivered == [] && packs == posts == 0 && bulkLimits == limits
    {
      this.server, this.single, bulkLimits := server, single, limits;
      clock, delivered, packs, posts := 0, [], 0, 0;
    }

    /** A 413 answer: give up packs for a lone record, otherwise halve. */
    method Refused(records: seq<Record>) returns (outcome: Outcome, ghost halves: (seq<Record>, seq<Record>))
      requires AllShaped(records) && PACK_HEADER_BYTES + Payload(records) <= U32_MAX
      modifies this`bulkLimits
      ensures Lowered(old(bulkLimits), bulkLimits)
      ensures outcome == if records == [] then Stop else if |records| == 1 then Legacy else Halve
      ensures outcome == Stop ==> bulkLimits == old(bulkLimits)
      ensures outcome == Legacy ==> bulkLimits == None
      ensures outcome == Halve ==> halves.0 != [] && halves.1 != [] && halves.0 + halves.1 == records &&
                                   bulkLimits == CappedFor(old(bulkLimits), halves.0, halves.1)
    {
      hide Payload, Shaped, Largest;
      halves := ([], []);
      if |records| == 1 {
        bulkLimits := None;
        return Legacy, halves;
      }
      var split := Split(records);
      if split.None? { return Stop, halves; }
      halves := split.value;
      HalvesAreShaped(split.value.0, split.value.1);
      HalvesFit(split.value.0, split.value.1);
      var first := PackLength(split.value.0);
      var second := PackLength(split.value.1);
      if first.Some? && second.Some? && bulkLimits.Some? {
        var l := bulkLimits.value;
        bulkLimits := Some(l.(maxBytes := Min(l.maxBytes, Max(first.value, second.value))));
      }
      return Halve, halves;
    }

    /** Up to three attempts to have one pack acknowledged. */
    method Post(records: seq<Record>) returns (outcome: Outcome)
      requires AllShaped(records) && PACK_HEADER_BYTES + Payload(records) <= U32_MAX
      modifies this`bulkLimits, this`clock, this`posts
      ensures Lowered(old(bulkLimits), bulkLimits)
      ensures old(posts) < posts <= old(posts) + ATTEMPTS
      ensures outcome == Halve ==> |records| >= 2
      ensures outcome == Done ==> clock > 0 && Confirms(server(clock - 1, records), |records|)
      ensures Benign(server, single) && records != [] ==> outcome != Stop
    {
      hide Payload, Shaped, DecodeAck, Judge, Confirms;
      for attempt := 0 to ATTEMPTS
        invariant posts == old(posts) + attempt && bulkLimits == old(bulkLimits)
        invariant Benign(server, single) ==> attempt == 0
      {
        var answer := server(clock, records);
        clock, posts := clock + 1, posts + 1;
        match answer {
          case Failed => return Stop;
          case Gone =>
            bulkLimits := None;
            return Legacy;
          case TooLarge =>
            ghost var halves;
            outcome, halves := Refused(records);
            return;
          case Acked(body) =>
            var judged := Judge(DecodeAck(body, |records|));
            if judged.Some? {
              JudgedOutcome(body, |records|);
              return judged.value;
            }
        }
      }
      return Stop;
    }

    /** The durable single-object path, record by record. */
    method PutSingly(records: seq<Record>) returns (ok: bool)
      modifies this`clock, this`delivered
      ensures old(delivered) <= delivered <= old(delivered) + records
      ensures ok <==> delivered == old(delivered) + records
      ensures (forall n, r :: single(n, r)) ==> ok
      ensures old(AllVouched(server, single, delivered)) ==> AllVouched(server, single, delivered)
    {
      hide Confirms;
      for i := 0 to |records|
        invariant delivered == old(delivered) + records[..i]
        invariant old(AllVouched(server, single, delivered)) ==> AllVouched(server, single, delivered)
      {
        var stored := single(clock, records[i]);
        SingleVouches(server, single, clock, records[i]);
        clock := clock + 1;
        if !stored { return false; }
        delivered := delivered + [records[i]];
        assert records[..i + 1] == records[..i] + [records[i]];
      }
      assert records[..|records|] == records;
      return true;
    }

    /** `putBulkPack`. Whatever is refused and however packs are halved, what has
        been acknowledged is a prefix of the records in their order, and all of
        them on success; and each acknowledged record has an answer that says so. */
    method PutPack(records: seq<Record>, limits: Limits) returns (ok: bool)
      modifies this
      ensures old(delivered) <= delivered <= old(delivered) + records
      ensures ok ==> delivered == old(delivered) + records
      ensures old(packs) <= packs <= old(packs) + Max(1, 2 * |records| - 1)
      ensures old(posts) <= posts && posts - old(posts) <= ATTEMPTS * (packs - old(packs))
      ensures Lowered(old(bulkLimits), bulkLimits)
      ensures old(AllVouched(server, single, delivered)) ==> AllVouched(server, single, delivered)
      ensures Benign(server, single) && records != [] && ValidLimits(limits) && Encodable(records, limits) ==> ok
      decreases |records|
    {
      hide Payload, Shaped, Benign, Largest, Encodable, Confirms, AllVouched;
      EncodableFits(records, limits);
      BenignStores(server, single);
      var length := PackLength(records);
      if length.None? || length.value > limits.maxBytes { return false; }
      var body := EncodeUploadPack(records, limits);
      if body.None? { return false; }
      packs := packs + 1;
      var outcome := Post(records);
      match outcome {
        case Stop => return false;
        case Done =>
          PackVouches(server, single, clock - 1, records, delivered);
          delivered := delivered + records;
          return true;
        case Legacy =>
          ok := PutSingly(records);
        case Halve =>
          var halves := Split(records);
          var first, second := halves.value.0, halves.value.1;
          PartIsEncodable(first, second, limits);
          ok := PutPack(first, limits);
          if ok {
            ok := PutPack(second, limits);
          }
      }
    }
  }

  lemma HalvesFit(first: seq<Record>, second: seq<Record>)
    ensures Payload(first) <= Payload(first + second) && Payload(second) <= Payload(first + second)
  {
    PayloadSplits(first, second);
  }

  lemma HalvesAreShaped(first: seq<Record>, second: seq<Record>)
    requires AllShaped(first + second)
    ensures AllShaped(first) && AllShaped(second)
  {
    forall i | 0 <= i < |first|
      ensures Shaped(first[i])
    {
      assert (first + second)[i] == first[i];
    }
    forall i | 0 <= i < |second|
      ensures Shaped(second[i])
    {
      assert (first + second)[|first| + i] == second[i];
    }
  }

  lemma JudgedOutcome(body: Bytes, count: nat)
    ensures var j := Judge(DecodeAck(body, count)); j.Some? ==> j.value == Stop || j.value == Done
    ensures Judge(DecodeAck(body, count)) == Some(Done) <==> Confirms(Acked(body), count)
  {
    if DecodeAck(body, count).Some? {
      var statuses := body[8..];
      assert forall i | 8 <= i < |body| :: body[i] == statuses[i - 8];
      assert forall i | 0 <= i < |statuses| :: statuses[i] == body[i + 8];
    }
  }

  lemma BenignStores(server: (nat, seq<Record>) -> PutAnswer, single: (nat, Record) -> bool)
    ensures Benign(server, single) ==> forall n, r :: single(n, r)
  {
  }

  lemma SingleVouches(server: (nat, seq<Record>) -> PutAnswer, single: (nat, Record) -> bool, n: nat, r: Record)
    ensures single(n, r) ==> Vouched(server, single, r)
  {
  }

  lemma PackVouches(server: (nat, seq<Record>) -> PutAnswer, single: (nat, Record) -> bool, n: nat, rs: seq<Record>,
                    before: seq<Record>)
    requires Confirms(server(n, rs), |rs|)
    ensures AllVouched(server, single, before) ==> AllVouched(server, single, before + rs)
  {
    hide Confirms;
    forall i | 0 <= i < |rs|
      ensures Vouched(server, single, rs[i])
    {
      assert rs[i] in rs && Confirms(server(n, rs), |rs|);
    }
  }

  lemma EncodableFits(records: seq<Record>, l: Limits)
    ensures ValidLimits(l) && Encodable(records, l) ==>
      AllShaped(records) && PACK_HEADER_BYTES + Payload(records) <= l.maxBytes <= U32_MAX
  {
  }

  // ------------------------------------------------------------------ downloads

  const LEGACY_OBJECT_BYTES := 4 * 1024 * 1024
  const GET_HEADER_BYTES := 17
  const HASH_BYTES := 32

  /** `[...new Set(hashes.map(toLowerCase))]`: first occurrences, in order. */
  function Unique(hashes: seq<string>): seq<string> {
    if hashes == [] then []
    else
      var rest, last := Unique(hashes[..|hashes| - 1]), LowerText(hashes[|hashes| - 1]);
      if last in rest then rest else rest + [last]
  }

  ghost predicate NoRepeats(s: seq<string>) {
    forall i, j | 0 <= i < j < |s| :: s[i] != s[j]
  }

  lemma {:induction false} UniqueIsUnique(hashes: seq<string>)
    ensures NoRepeats(Unique(hashes)) && |Unique(hashes)| <= |hashes|
    ensures forall h :: h in Unique(hashes) <==> exists i | 0 <= i < |hashes| :: LowerText(hashes[i]) == h
  {
    hide LowerText, NoRepeats;
    if hashes == [] {
      NothingRepeats();
    } else {
      var n := |hashes| - 1;
      var before, last := hashes[..n], LowerText(hashes[n]);
      UniqueIsUnique(before);
      OneMoreName(Unique(before), last);
      forall h
        ensures h in Unique(hashes) <==> exists i | 0 <= i < |hashes| :: LowerText(hashes[i]) == h
      {
        NamedByMore(hashes, h);
      }
    }
  }

  lemma NothingRepeats()
    ensures NoRepeats([])
  {}

  lemma OneMoreName(names: seq<string>, h: string)
    requires NoRepeats(names)
    ensures h !in names ==> NoRepeats(names + [h])
  {}

  lemma NamedByMore(hashes: seq<string>, h: string)
    requires hashes != []
    ensures var n := |hashes| - 1;
      (exists i | 0 <= i < |hashes| :: LowerText(hashes[i]) == h) <==>
      (exists i | 0 <= i < n :: LowerText(hashes[..n][i]) == h) || LowerText(hashes[n]) == h
  {
    hide LowerText;
    var n := |hashes| - 1;
    if i :| 0 <= i < n && LowerText(hashes[..n][i]) == h { assert LowerText(hashes[i]) == h; }
    if i :| 0 <= i < |hashes| && LowerText(hashes[i]) == h {
      if i < n { assert LowerText(hashes[..n][i]) == h; }
    }
  }

  datatype GetAnswer = Served(body: Bytes) | Missing | Oversized | Broken

  /** What has been kept: the objects, how often `retain` ran, and how much. */
  datatype Kept = Kept(output: map<string, Bytes>, order: seq<string>, bytes: nat)

  /** Every kept object was kept once. */
  ghost predicate Once(k: Kept) {
    NoRepeats(k.order) && forall h :: h in k.output <==> h in k.order
  }

  function Sizes(output: map<string, Bytes>, order: seq<string>): nat
    requires forall h | h in order :: h in output
  {
    if order == [] then 0 else Sizes(output, order[..|order| - 1]) + |output[order[|order| - 1]]|
  }

  /** The byte count is that of the kept objects. */
  ghost predicate Sound(k: Kept) {
    Once(k) && k.bytes == Sizes(k.output, k.order)
  }

  datatype Budget = Budget(memory: Option<nat>, local: nat, lone: bool) {
    /** The retention limit: the caller's admission, or the runtime's own. */
    function Limit(): nat {
      memory.GetOr(local)
    }

    /** One large legacy object is admitted only without a caller's admission. */
    predicate Admits(total: nat, size: nat) {
      total <= Limit() || (memory.None? && lone && size <= LEGACY_OBJECT_BYTES)
    }
  }

  lemma {:induction false} SizesOfMore(output: map<string, Bytes>, order: seq<string>, h: string, data: Bytes)
    requires (forall x | x in order :: x in output) && h !in order
    ensures Sizes(output[h := data], order) == Sizes(output, order)
  {
    if order != [] { SizesOfMore(output, order[..|order| - 1], h, data); }
  }

  lemma OneMoreKept(k: Kept, h: string, data: Bytes)
    requires Sound(k) && h !in k.output
    ensures Sound(Kept(k.output[h := data], k.order + [h], k.bytes + |data|))
  {
    var output, order := k.output[h := data], k.order + [h];
    assert order[..|k.order|] == k.order;
    assert Once(Kept(output, order, k.bytes + |data|));
    hide Once;
    SizesOfMore(k.output, k.order, h, data);
    assert Sizes(output, order) == Sizes(output, k.order) + |data|;
  }

  /** `retain`. */
  method Retain(k: Kept, h: string, data: Bytes, budget: Budget) returns (r: Option<Kept>)
    requires Sound(k) && h !in k.output
    ensures r.Some? <==> budget.Admits(k.bytes + |data|, |data|)
    ensures r.Some? ==> Sound(r.value) && r.value == Kept(k.output[h := data], k.order + [h], k.bytes + |data|)
  {
    hide Sound, Budget.Admits;
    if !budget.Admits(k.bytes + |data|, |data|) { return None; }
    OneMoreKept(k, h, data);
    return Some(Kept(k.output[h := data], k.order + [h], k.bytes + |data|));
  }

  /** Within the retention limit, or one large object without an admission. */
  ghost predicate Bounded(k: Kept, budget: Budget) {
    k.bytes <= budget.Limit() || (budget.memory.None? && budget.lone && k.bytes <= LEGACY_OBJECT_BYTES)
  }

  /** Those of the names that are kept. */
  function Present(names: seq<string>, output: map<string, Bytes>): seq<string> {
    if names == [] then []
    else
      var rest, last := Present(names[..|names| - 1], output), names[|names| - 1];
      if last in output then rest + [last] else rest
  }

  lemma {:induction false} PresentIn(names: seq<string>, output: map<string, Bytes>, h: string)
    ensures h in Present(names, output) <==> h in names && h in output
  {
    if names != [] {
      var n := |names| - 1;
      PresentIn(names[..n], output, h);
      assert names == names[..n] + [names[n]];
    }
  }

  lemma {:induction false} PresentSplits(a: seq<string>, b: seq<string>, output: map<string, Bytes>)
    ensures Present(a + b, output) == Present(a, output) + Present(b, output)
  {
    if b == [] {
      assert a + b == a;
    } else {
      var c := b[..|b| - 1];
      PresentSplits(a, c, output);
      assert (a + b)[..|a + b| - 1] == a + c;
    }
  }

  lemma {:induction false} PresentSame(names: seq<string>, o: map<string, Bytes>, p: map<string, Bytes>)
    requires forall h | h in names :: h in o <==> h in p
    ensures Present(names, o) == Present(names, p)
  {
    if names != [] { PresentSame(names[..|names| - 1], o, p); }
  }

  lemma {:induction false} PresentAll(names: seq<string>, output: map<string, Bytes>)
    ensures (forall h | h in names :: h in output) ==> Present(names, output) == names
    ensures (forall h | h in names :: h !in output) ==> Present(names, output) == []
  {
    if names != [] {
      var n := |names| - 1;
      PresentAll(names[..n], output);
      assert names == names[..n] + [names[n]];
    }
  }

  /** A step of the download: these names, where kept, were added once, in their
      order and within budget, and nothing else changed. */
  ghost predicate Extends(before: Kept, after: Kept, names: seq<string>, budget: Budget) {
    && Sound(after) && Bounded(after, budget)
    && (forall h | h in before.output :: h in after.output && after.output[h] == before.output[h])
    && after.order == before.order + Present(names, after.output)
  }

  lemma OnlyTheseNames(a: Kept, b: Kept, names: seq<string>, budget: Budget, h: string)
    requires Sound(a) && Extends(a, b, names, budget) && h in b.output
    ensures h in a.output || h in names
  {
    PresentIn(names, b.output, h);
  }

  lemma ExtendsOn(a: Kept, b: Kept, c: Kept, m: seq<string>, n: seq<string>, budget: Budget)
    requires Sound(b) && Extends(a, b, m, budget) && Extends(b, c, n, budget) && forall h | h in m :: h !in n
    ensures Extends(a, c, m + n, budget)
  {
    hide Sound, Bounded, Present;
    forall h | h in m
      ensures h in b.output <==> h in c.output
    {
      if h in c.output { OnlyTheseNames(b, c, n, budget, h); }
    }
    PresentSame(m, b.output, c.output);
    PresentSplits(m, n, c.output);
  }

  /** A lone object is the first that is kept. */
  ghost predicate Alone(k: Kept, budget: Budget) {
    budget.lone ==> k.order == []
  }

  lemma EmptyIsZero(k: Kept)
    requires Sound(k)
    ensures k.order == [] ==> k.bytes == 0
  {
  }

  method Keep(k: Kept, h: string, data: Bytes, budget: Budget) returns (r: Option<Kept>)
    requires Sound(k) && h !in k.output && Alone(k, budget)
    ensures r.Some? ==> Extends(k, r.value, [h], budget) && r.value.output == k.output[h := data]
  {
    hide Once, Sizes, Sound;
    EmptyIsZero(k);
    r := Retain(k, h, data, budget);
    if r.Some? { PresentAll([h], r.value.output); }
  }

  /** The object is one of these records, under its own name. */
  ghost predicate Among(records: seq<Record>, kind: int, h: string, data: Bytes) {
    exists i | 0 <= i < |records| :: records[i].kind == kind && records[i].hash == h && records[i].data == data
  }

  /** The answer is a well-formed page that carries the object. */
  ghost predicate Sent(answer: GetAnswer, kind: int, h: string, data: Bytes) {
    answer.Served? && exists count: nat, previous: nat, l, next: nat, rs ::
      IsPage(answer.body, count, previous, l, next, rs) && Among(rs, kind, h, data)
  }

  /** Some answer gave exactly these bytes for this name. */
  ghost predicate Genuine(server: nat -> GetAnswer, single: (nat, string) -> Option<Bytes>, kind: int, h: string,
                          data: Bytes) {
    exists n: nat :: single(n, h) == Some(data) || Sent(server(n), kind, h, data)
  }

  ghost predicate AllGenuine(server: nat -> GetAnswer, single: (nat, string) -> Option<Bytes>, kind: int,
                             output: map<string, Bytes>) {
    forall h | h in output :: Genuine(server, single, kind, h, output[h])
  }

  lemma SingleIsGenuine(server: nat -> GetAnswer, single: (nat, string) -> Option<Bytes>, kind: int, n: nat, h: string)
    ensures single(n, h).Some? ==> Genuine(server, single, kind, h, single(n, h).value)
  {
    hide Sent;
  }

  lemma PageIsGenuine(server: nat -> GetAnswer, single: (nat, string) -> Option<Bytes>, kind: int, n: nat, count: nat,
                      previous: nat, l: Limits, next: nat, rs: seq<Record>, before: map<string, Bytes>,
                      after: map<string, Bytes>)
    requires server(n).Served? && IsPage(server(n).body, count, previous, l, next, rs) &&
      AllGenuine(server, single, kind, before)
    requires forall h | h in after :: (h in before && after[h] == before[h]) || Among(rs, kind, h, after[h])
    ensures AllGenuine(server, single, kind, after)
  {
    hide IsPage, Among;
    forall h | h in after
      ensures Genuine(server, single, kind, h, after[h])
    {
      if !(h in before && after[h] == before[h]) { assert Sent(server(n), kind, h, after[h]); }
    }
  }

  /** `encodeBulkGetRequest` accepts this group. */
  predicate Requestable(group: seq<string>, l: Limits) {
    && |group| <= l.maxObjects && 0 < l.maxBytes <= U32_MAX
    && forall i | 0 <= i < |group| :: IsHash(group[i])
  }

  function RecordBytesTotal(records: seq<Record>): nat {
    if records == [] then 0 else RecordBytesTotal(records[..|records| - 1]) + |records[|records| - 1].data|
  }

  /** The first place of `h` in `group[from..to]`, or `to`. */
  method Find(group: seq<string>, h: string, from: nat, to: nat) returns (i: nat)
    requires from <= to <= |group|
    ensures from <= i <= to && (i < to ==> group[i] == h)
    ensures i == to ==> h !in group[from..to]
  {
    i := from;
    while i < to && group[i] != h
      invariant from <= i <= to && h !in group[from..i]
    {
      i := i + 1;
    }
  }

  /** Names that are not kept may be counted among those seen. */
  lemma ExtendsMore(a: Kept, b: Kept, m: seq<string>, skipped: seq<string>, last: seq<string>, budget: Budget)
    requires Extends(a, b, m + last, budget) && forall h | h in skipped :: h !in b.output
    ensures Extends(a, b, m + skipped + last, budget)
  {
    hide Sound, Bounded, Present;
    PresentSplits(m, last, b.output);
    PresentSplits(m + skipped, last, b.output);
    PresentSplits(m, skipped, b.output);
    PresentAll(skipped, b.output);
  }

  /** Names after a place have not been kept by a step that stayed before it. */
  lemma StillNew(a: Kept, b: Kept, group: seq<string>, from: nat, to: nat, budget: Budget)
    requires from <= to <= |group| && NoRepeats(group) && Sound(a) && Extends(a, b, group[from..to], budget)
    requires forall i | from <= i < |group| :: group[i] !in a.output
    ensures forall i | to <= i < |group| :: group[i] !in b.output
  {
    hide Sound, Bounded, Present, Extends;
    forall i | to <= i < |group|
      ensures group[i] !in b.output
    {
      Elsewhere(group, from, to, i);
      if group[i] in b.output { OnlyTheseNames(a, b, group[from..to], budget, group[i]); }
    }
  }

  lemma Elsewhere(group: seq<string>, from: nat, to: nat, i: nat)
    requires from <= to <= i < |group| && NoRepeats(group)
    ensures group[i] !in group[from..to]
  {
    assert forall j | 0 <= j < to - from :: group[from..to][j] == group[from + j];
  }

  lemma Apart(group: seq<string>, from: nat, to: nat, end: nat)
    requires from <= to <= end <= |group| && NoRepeats(group)
    ensures forall h | h in group[from..to] :: h !in group[to..end]
  {
    forall h | h in group[from..to]
      ensures h !in group[to..end]
    {
      var i :| 0 <= i < to - from && group[from..to][i] == h;
      assert group[from + i] == h;
      assert forall j | 0 <= j < end - to :: group[to..end][j] == group[to + j];
    }
  }

  /** The records of one page, each at its place in the request. */
  method ApplyPage(k: Kept, records: seq<Record>, group: seq<string>, cursor: nat, next: nat, kind: int, budget: Budget)
    returns (r: Option<Kept>)
    requires Sound(k) && Bounded(k, budget) && NoRepeats(group) && cursor <= next <= |group|
    requires forall i | cursor <= i < |group| :: group[i] !in k.output
    requires budget.lone ==> |group| <= 1 && (cursor == 0 ==> k.order == [])
    ensures r.Some? ==> Extends(k, r.value, group[cursor..next], budget)
    ensures r.Some? ==> forall h | h in r.value.output ::
      (h in k.output && r.value.output[h] == k.output[h]) || Among(records, kind, h, r.value.output[h])
  {
    hide Sound, Bounded, Budget.Admits, NoRepeats, Extends;
    SameExtends(k, budget);
    var kept, searchFrom := k, cursor;
    assert group[cursor..cursor] == [];
    for n := 0 to |records|
      invariant cursor <= searchFrom <= next && Extends(k, kept, group[cursor..searchFrom], budget)
      invariant searchFrom == cursor ==> kept == k
      invariant forall h | h in kept.output ::
        (h in k.output && kept.output[h] == k.output[h]) || Among(records, kind, h, kept.output[h])
    {
      var record := records[n];
      if record.kind != kind { return None; }
      var requestIndex := Find(group, record.hash, searchFrom, next);
      if requestIndex >= next || record.hash in kept.output { return None; }
      ExtendsIsSound(k, kept, group[cursor..searchFrom], budget);
      var more := Keep(kept, record.hash, record.data, budget);
      if more.None? { return None; }
      Placed(k, kept, more.value, group, cursor, searchFrom, requestIndex, budget);
      kept, searchFrom := more.value, requestIndex + 1;
    }
    Skipped(k, kept, group, cursor, searchFrom, next, budget);
    return Some(kept);
  }

  /** One record kept at its place, the names before it skipped. */
  lemma Placed(k: Kept, kept: Kept, more: Kept, group: seq<string>, cursor: nat, from: nat, at: nat, budget: Budget)
    requires cursor <= from <= at < |group| && NoRepeats(group) && Sound(k)
    requires forall i | cursor <= i < |group| :: group[i] !in k.output
    requires Extends(k, kept, group[cursor..from], budget) && Extends(kept, more, [group[at]], budget)
    ensures Extends(k, more, group[cursor..at + 1], budget)
  {
    hide Sound, Bounded, Present, NoRepeats, Extends;
    ExtendsIsSound(k, kept, group[cursor..from], budget);
    StillNew(k, kept, group, cursor, from, budget);
    Elsewhere(group, cursor, from, at);
    ExtendsOn(k, kept, more, group[cursor..from], [group[at]], budget);
    forall h | h in group[from..at]
      ensures h !in more.output
    {
      var i :| 0 <= i < at - from && group[from..at][i] == h;
      assert group[from + i] == h && h !in kept.output;
      Elsewhere(group, from, at, at);
      if h in more.output { OnlyTheseNames(kept, more, [group[at]], budget, h); }
    }
    ExtendsMore(k, more, group[cursor..from], group[from..at], [group[at]], budget);
    assert group[cursor..at + 1] == group[cursor..from] + group[from..at] + [group[at]];
  }

  /** The names after the last record are skipped too. */
  lemma Skipped(k: Kept, kept: Kept, group: seq<string>, cursor: nat, from: nat, next: nat, budget: Budget)
    requires cursor <= from <= next <= |group| && NoRepeats(group) && Sound(k)
    requires forall i | cursor <= i < |group| :: group[i] !in k.output
    requires Extends(k, kept, group[cursor..from], budget)
    ensures Extends(k, kept, group[cursor..next], budget)
  {
    hide Sound, Bounded, Present, NoRepeats, Extends;
    StillNew(k, kept, group, cursor, from, budget);
    forall h | h in group[from..next]
      ensures h !in kept.output
    {
      var i :| 0 <= i < next - from && group[from..next][i] == h;
      assert group[from + i] == h;
    }
    assert group[cursor..from] + [] == group[cursor..from];
    ExtendsMore(k, kept, group[cursor..from], group[from..next], [], budget);
    assert group[cursor..next] == group[cursor..from] + group[from..next] + [];
  }

  lemma SameExtends(k: Kept, budget: Budget)
    requires Sound(k) && Bounded(k, budget)
    ensures Extends(k, k, [], budget)
  {
  }

  lemma ExtendsIsSound(a: Kept, b: Kept, m: seq<string>, budget: Budget)
    requires Extends(a, b, m, budget)
    ensures Sound(b) && Bounded(b, budget)
  {
  }

  class Downloader {
    const server: nat -> GetAnswer
    const single: (nat, string) -> Option<Bytes>
    var clock: nat
    var bulkLimits: Option<Limits>
    var posts: nat

    constructor (server: nat -> GetAnswer, single: (nat, string) -> Option<Bytes>, limits: Option<Limits>)
      ensures bulkLimits == limits && posts == 0
    {
      this.server, this.single, bulkLimits := server, single, limits;
      clock, posts := 0, 0;
    }

    /** The single-object path for a run of names. */
    method FetchSingly(k: Kept, names: seq<string>, budget: Budget, ghost kind: int) returns (r: Option<Kept>)
      requires Sound(k) && Bounded(k, budget) && NoRepeats(names) && (forall h | h in names :: h !in k.output)
      requires budget.lone ==> k.order == [] && |names| <= 1
      requires AllGenuine(server, single, kind, k.output)
      modifies this`clock
      ensures r.Some? ==> Extends(k, r.value, names, budget) && forall h | h in names :: h in r.value.output
      ensures r.Some? ==> AllGenuine(server, single, kind, r.value.output)
    {
      hide Sound, Bounded, Budget.Admits, Present, NoRepeats, Extends, Genuine;
      var kept := k;
      SameExtends(k, budget);
      for i := 0 to |names|
        invariant Extends(k, kept, names[..i], budget) && (forall j | 0 <= j < i :: names[j] in kept.output)
        invariant i == 0 ==> kept == k
        invariant AllGenuine(server, single, kind, kept.output)
      {
        var data := single(clock, names[i]);
        SingleIsGenuine(server, single, kind, clock, names[i]);
        clock := clock + 1;
        if data.None? { return None; }
        assert names[..i + 1] == names[..i] + [names[i]] && names[..i] == names[0..i];
        ExtendsIsSound(k, kept, names[..i], budget);
        StillNew(k, kept, names, 0, i, budget);
        Elsewhere(names, 0, i, i);
        var next := Keep(kept, names[i], data.value, budget);
        if next.None? { return None; }
        ExtendsOn(k, kept, next.value, names[..i], [names[i]], budget);
        KeepsValues(k, kept, next.value, names[..i], [names[i]], budget);
        kept := next.value;
      }
      assert names[..|names|] == names;
      return Some(kept);
    }

    /** One page request at the cursor: served, missing or refused for its size. */
    method FetchPage(k: Kept, group: seq<string>, cursor: nat, kind: int, limits: Limits, budget: Budget)
      returns (r: Option<(Kept, nat)>)
      requires Sound(k) && Bounded(k, budget) && NoRepeats(group) && cursor < |group|
      requires forall i | cursor <= i < |group| :: group[i] !in k.output
      requires budget.lone ==> |group| <= 1 && k.order == []
      requires AllGenuine(server, single, kind, k.output)
      modifies this
      ensures r.Some? ==> cursor < r.value.1 <= |group| && Extends(k, r.value.0, group[cursor..r.value.1], budget)
      ensures r.Some? ==> AllGenuine(server, single, kind, r.value.0.output)
      ensures posts == old(posts) + 1 && Lowered(old(bulkLimits), bulkLimits)
    {
      hide Sound, Bounded, Budget.Admits, NoRepeats, Extends, IsPage, FromCursor, Normals, Genuine, Among;
      var answer := server(clock);
      clock, posts := clock + 1, posts + 1;
      match answer {
        case Broken => return None;
        case Missing =>
          bulkLimits := None;
          RestIsNew(k, group, cursor);
          var kept := FetchSingly(k, group[cursor..], budget, kind);
          if kept.None? { return None; }
          assert group[cursor..] == group[cursor..|group|];
          return Some((kept.value, |group|));
        case Oversized =>
          var data := single(clock, group[cursor]);
          SingleIsGenuine(server, single, kind, clock, group[cursor]);
          clock := clock + 1;
          if data.None? { return None; }
          var kept := Keep(k, group[cursor], data.value, budget);
          if kept.None? { return None; }
          assert group[cursor..cursor + 1] == [group[cursor]];
          return Some((kept.value, cursor + 1));
        case Served(body) =>
          var page := DecodeDownload(body, |group|, cursor, limits);
          if page.None? || page.value.nextCursor == cursor { return None; }
          PageCursor(body, |group|, cursor, limits, page.value.nextCursor, page.value.records);
          if budget.memory.Some? && k.bytes + RecordBytesTotal(page.value.records) > budget.Limit() { return None; }
          var kept := ApplyPage(k, page.value.records, group, cursor, page.value.nextCursor, kind, budget);
          if kept.None? { return None; }
          PageIsGenuine(server, single, kind, clock - 1, |group|, cursor, limits, page.value.nextCursor,
                        page.value.records, k.output, kept.value.output);
          return Some((kept.value, page.value.nextCursor));
      }
    }

    /** The cursor loop over one group of names. */
    method FetchGroup(k: Kept, group: seq<string>, kind: int, limits: Limits, budget: Budget) returns (r: Option<Kept>)
      requires Sound(k) && Bounded(k, budget) && NoRepeats(group) && (forall h | h in group :: h !in k.output)
      requires budget.lone ==> |group| <= 1 && k.order == []
      requires AllGenuine(server, single, kind, k.output)
      modifies this
      ensures r.Some? ==> Extends(k, r.value, group, budget) && forall h | h in group :: h in r.value.output
      ensures r.Some? ==> AllGenuine(server, single, kind, r.value.output)
      ensures old(posts) <= posts <= old(posts) + |group| && Lowered(old(bulkLimits), bulkLimits)
    {
      hide Sound, Bounded, Budget.Admits, NoRepeats, Extends, AllGenuine;
      var kept, cursor := k, 0;
      SameExtends(k, budget);
      while cursor < |group|
        invariant cursor <= |group| && Extends(k, kept, group[..cursor], budget)
        invariant old(posts) <= posts <= old(posts) + cursor && Lowered(old(bulkLimits), bulkLimits)
        invariant cursor == 0 ==> kept == k
        invariant AllGenuine(server, single, kind, kept.output)
        decreases |group| - cursor
      {
        if !Requestable(group, limits) { return None; }
        assert group[..cursor] == group[0..cursor];
        ExtendsIsSound(k, kept, group[..cursor], budget);
        StillNew(k, kept, group, 0, cursor, budget);
        var page := FetchPage(kept, group, cursor, kind, limits, budget);
        if page.None? { return None; }
        Apart(group, 0, cursor, page.value.1);
        ExtendsOn(k, kept, page.value.0, group[..cursor], group[cursor..page.value.1], budget);
        assert group[..page.value.1] == group[..cursor] + group[cursor..page.value.1];
        kept, cursor := page.value.0, page.value.1;
      }
      assert group[..cursor] == group;
      for i := 0 to |group|
        invariant forall j | 0 <= j < i :: group[j] in kept.output
      {
        if group[i] !in kept.output { return None; }
      }
      return Some(kept);
    }

    /** `getObjectsInternal`. Against any server the loop ends; it fails or returns
        exactly the requested names, each kept once, with bytes that some answer gave
        for that name, and within the budget, with at most one page request per name. */
    method Fetch(hashes: seq<string>, kind: int, memory: Option<nat>, local: nat, revoked: nat -> bool)
      returns (r: Option<Kept>)
      modifies this
      ensures r.Some? ==>
        && Sound(r.value) && r.value.order == Unique(hashes)
        && Bounded(r.value, Budget(memory, local, |Unique(hashes)| == 1 && (kind == 1 || kind == 3)))
      ensures old(posts) <= posts <= old(posts) + |Unique(hashes)| && Lowered(old(bulkLimits), bulkLimits)
      ensures r.Some? ==> AllGenuine(server, single, kind, r.value.output)
      ensures |Unique(hashes)| > MAX_OBJECTS ==> r.None?
    {
      hide Sound, Bounded, Budget.Admits, NoRepeats, Extends, Unique, Genuine;
      var unique := Unique(hashes);
      UniqueIsUnique(hashes);
      var budget := Budget(memory, local, |unique| == 1 && (kind == 1 || kind == 3));
      var kept := Kept(map[], [], 0);
      NothingKept(budget);
      if |unique| == 0 { return Some(kept); }
      if |unique| > MAX_OBJECTS { return None; }
      if bulkLimits.None? {
        r := FetchSingly(kept, unique, budget, kind);
        if r.Some? { OnlyNames(kept, r.value, unique, budget); }
        return;
      }
      var limits := if memory.Some? then bulkLimits.value.(maxBytes := Min(bulkLimits.value.maxBytes, memory.value))
        else bulkLimits.value;
      var perRequest := Max(1, Min(limits.maxObjects, (limits.maxBytes - GET_HEADER_BYTES) / HASH_BYTES));
      var offset := 0;
      ghost var start := kept;
      SameExtends(kept, budget);
      while offset < |unique|
        invariant offset <= |unique| && Extends(start, kept, unique[..offset], budget)
        invariant forall i | 0 <= i < offset :: unique[i] in kept.output
        invariant old(posts) <= posts <= old(posts) + offset && Lowered(old(bulkLimits), bulkLimits)
        invariant offset == 0 ==> kept == start
        invariant AllGenuine(server, single, kind, kept.output)
        decreases |unique| - offset
      {
        var end := Min(offset + perRequest, |unique|);
        var group := unique[offset..end];
        GroupIsNew(start, kept, unique, offset, end, budget);
        ExtendsIsSound(start, kept, unique[..offset], budget);
        if revoked(clock) { bulkLimits := None; }
        var more;
        if bulkLimits.None? {
          more := FetchSingly(kept, group, budget, kind);
        } else {
          more := FetchGroup(kept, group, kind, limits, budget);
        }
        if more.None? { return None; }
        assert unique[..offset] == unique[0..offset];
        Apart(unique, 0, offset, end);
        ExtendsOn(start, kept, more.value, unique[..offset], group, budget);
        assert unique[..end] == unique[..offset] + group;
        AllKept(start, kept, more.value, unique, offset, end, budget);
        kept, offset := more.value, end;
      }
      assert unique[..offset] == unique;
      OnlyNames(start, kept, unique, budget);
      return Some(kept);
    }
  }

  lemma RestIsNew(k: Kept, group: seq<string>, cursor: nat)
    requires NoRepeats(group) && cursor <= |group| && forall i | cursor <= i < |group| :: group[i] !in k.output
    ensures NoRepeats(group[cursor..]) && forall h | h in group[cursor..] :: h !in k.output
  {
  }

  lemma PageCursor(body: Bytes, expected: nat, previous: nat, l: Limits, next: nat, rs: seq<Record>)
    requires IsPage(body, expected, previous, l, next, rs)
    ensures previous <= next <= expected
  {
  }

  lemma NothingKept(budget: Budget)
    ensures Sound(Kept(map[], [], 0)) && Bounded(Kept(map[], [], 0), budget)
  {
  }

  lemma OnlyNames(start: Kept, k: Kept, names: seq<string>, budget: Budget)
    requires Extends(start, k, names, budget) && start.order == [] &&
      forall i | 0 <= i < |names| :: names[i] in k.output
    ensures Sound(k) && Bounded(k, budget) && k.order == names
  {
    hide Sound, Bounded;
    PresentAll(names, k.output);
  }

  lemma KeepsValues(a: Kept, b: Kept, c: Kept, m: seq<string>, n: seq<string>, budget: Budget)
    requires Extends(a, b, m, budget) && Extends(b, c, n, budget)
    ensures forall h | h in b.output :: h in c.output
  {
  }

  lemma GroupIsNew(start: Kept, k: Kept, unique: seq<string>, offset: nat, end: nat, budget: Budget)
    requires offset <= end <= |unique| && NoRepeats(unique) && start.output == map[]
    requires Sound(start) && Extends(start, k, unique[..offset], budget)
    ensures NoRepeats(unique[offset..end]) && forall h | h in unique[offset..end] :: h !in k.output
  {
    assert unique[..offset] == unique[0..offset];
    StillNew(start, k, unique, 0, offset, budget);
    var group := unique[offset..end];
    forall h | h in group
      ensures h !in k.output
    {
      var i :| 0 <= i < |group| && group[i] == h;
      assert unique[offset + i] == h;
    }
  }

  lemma AllKept(start: Kept, k: Kept, more: Kept, unique: seq<string>, offset: nat, end: nat, budget: Budget)
    requires offset <= end <= |unique| && Extends(k, more, unique[offset..end], budget)
    requires (forall i | 0 <= i < offset :: unique[i] in k.output) &&
      forall h | h in unique[offset..end] :: h in more.output
    ensures forall i | 0 <= i < end :: unique[i] in more.output
  {
    forall i | 0 <= i < end
      ensures unique[i] in more.output
    {
      if i >= offset { assert unique[offset..end][i - offset] == unique[i]; }
    }
  }
}
