/** A JSON library for journal rows: the text `JSON.stringify` gives them, with the
    inverse of the writer as its reader, and that it meets everything the journal
    format asks of its library. */
module JournalJson {
  import opened Common
  import opened JournalKeys
  import opened JournalIndices
  import opened JournalFormat

  // ---------------------------------------------------------------- numbers

  predicate IsDigit(c: char) {
    '0' <= c <= '9'
  }

  function ValueOf(s: string): int {
    if s == [] then 0 else 10 * ValueOf(s[..|s| - 1]) + (s[|s| - 1] as int - '0' as int)
  }

  lemma {:induction false} DecimalRoundTrip(n: nat)
    ensures ValueOf(Decimal(n)) == n && forall c | c in Decimal(n) :: IsDigit(c)
  {
    if n < 10 {
      assert [Digit(n)][..0] == [];
    } else {
      DecimalRoundTrip(n / 10);
      assert Decimal(n)[..|Decimal(n)| - 1] == Decimal(n / 10);
    }
  }

  /** A number takes no more digits than bits. */
  lemma {:induction false} DecimalLength(n: nat, k: nat)
    requires n < Pow2(k)
    ensures |Decimal(n)| <= k + 1
  {
    if n >= 10 {
      assert k > 0;
      DecimalLength(n / 10, k - 1);
    }
  }

  /** Digits end where another character stands. */
  lemma NumberDelimits(n: nat, m: nat, x: string, y: string)
    requires x != [] && y != [] && !IsDigit(x[0]) && !IsDigit(y[0])
    requires Decimal(n) + x == Decimal(m) + y
    ensures n == m && x == y
  {
    DecimalRoundTrip(n);
    DecimalRoundTrip(m);
    var p, q := Decimal(n), Decimal(m);
    assert (p + x)[|p|] == x[0] && (q + y)[|q|] == y[0];
    assert |p| == |q|;
    assert p == (p + x)[..|p|] == q;
    assert x == (p + x)[|p|..];
  }

  // -------------------------------------------------------------- checksums

  function HexDigit(n: nat): char
    requires n < 16
  {
    if n < 10 then '0' + n as char else 'a' + (n - 10) as char
  }

  function HexValue(c: char): int {
    if c <= '9' then c as int - '0' as int else c as int - 'a' as int + 10
  }

  /** `toString(16)`. */
  function Hexadecimal(n: nat): string {
    if n < 16 then [HexDigit(n)] else Hexadecimal(n / 16) + [HexDigit(n % 16)]
  }

  /** `hex`: eight digits at least. */
  function HexText(n: nat): string {
    PadStart(Hexadecimal(n), 8)
  }

  function HexNumber(s: string): int {
    if s == [] then 0 else 16 * HexNumber(s[..|s| - 1]) + HexValue(s[|s| - 1])
  }

  /** A number takes no more digits than bits, all of them plain. */
  lemma {:induction false} HexadecimalRoundTrip(n: nat, k: nat)
    requires n < Pow2(k)
    ensures HexNumber(Hexadecimal(n)) == n && |Hexadecimal(n)| <= k + 1
    ensures forall c | c in Hexadecimal(n) :: c >= '0'
  {
    if n < 16 {
      assert [HexDigit(n)][..0] == [];
    } else {
      assert k > 0;
      HexadecimalRoundTrip(n / 16, k - 1);
      assert Hexadecimal(n)[..|Hexadecimal(n)| - 1] == Hexadecimal(n / 16);
    }
  }

  lemma {:induction false} LeadingZero(s: string)
    ensures HexNumber(['0'] + s) == HexNumber(s)
  {
    if s == [] {
      assert (['0'] + s)[..0] == [];
    } else {
      var t := s[..|s| - 1];
      LeadingZero(t);
      assert (['0'] + s)[..|s|] == ['0'] + t;
    }
  }

  lemma {:induction false} PaddingKeeps(s: string, w: nat)
    ensures HexNumber(PadStart(s, w)) == HexNumber(s) && |PadStart(s, w)| <= Max(|s|, w)
    ensures (forall c | c in s :: c >= '0') ==> forall c | c in PadStart(s, w) :: c >= '0'
    decreases w - |s|
  {
    if |s| < w {
      LeadingZero(s);
      PaddingKeeps(['0'] + s, w);
    }
  }

  lemma HexTextReads(n: nat)
    requires n <= MAX_SAFE_INTEGER
    ensures HexNumber(HexText(n)) == n && |HexText(n)| <= 62 && forall c | c in HexText(n) :: c >= '0'
  {
    hide Pow2, Hexadecimal, PadStart;
    PowerOf53();
    HexadecimalRoundTrip(n, 53);
    PaddingKeeps(Hexadecimal(n), 8);
  }

  // ------------------------------------------------------------------ fields

  /** A fixed beginning can be taken off. */
  lemma TagDelimits(tag: string, x: string, y: string)
    requires tag + x == tag + y
    ensures x == y
  {
    assert x == (tag + x)[|tag|..] && y == (tag + y)[|tag|..];
  }

  function NumberField(tag: string, n: nat): string {
    tag + Decimal(n)
  }

  function TextField(tag: string, s: string): string {
    tag + Quote(s)
  }

  function OptionalNumber(tag: string, n: Option<nat>): string {
    if n.None? then "" else NumberField(tag, n.value)
  }

  function OptionalText(tag: string, s: Option<string>): string {
    if s.None? then "" else TextField(tag, s.value)
  }

  lemma NumberFieldDelimits(tag: string, n: nat, m: nat, x: string, y: string)
    requires x != [] && y != [] && !IsDigit(x[0]) && !IsDigit(y[0])
    requires NumberField(tag, n) + x == NumberField(tag, m) + y
    ensures n == m && x == y
  {
    assert NumberField(tag, n) + x == tag + (Decimal(n) + x) && NumberField(tag, m) + y == tag + (Decimal(m) + y);
    TagDelimits(tag, Decimal(n) + x, Decimal(m) + y);
    NumberDelimits(n, m, x, y);
  }

  lemma TextFieldDelimits(tag: string, p: string, q: string, x: string, y: string)
    requires TextField(tag, p) + x == TextField(tag, q) + y
    ensures p == q && x == y
  {
    assert TextField(tag, p) + x == tag + (Quote(p) + x) && TextField(tag, q) + y == tag + (Quote(q) + y);
    TagDelimits(tag, Quote(p) + x, Quote(q) + y);
    QuoteDelimits(p, q, x, y);
  }

  /** What follows an optional field does not look like it. */
  predicate Unlike(tag: string, x: string) {
    |tag| >= 3 && x != [] && !IsDigit(x[0]) && !(tag[..3] <= x)
  }

  lemma NumberBegins(tag: string, n: nat, x: string)
    requires |tag| >= 3
    ensures tag[..3] <= NumberField(tag, n) + x
  {
    hide Decimal;
    assert (NumberField(tag, n) + x)[..3] == tag[..3];
  }

  lemma TextBegins(tag: string, p: string, x: string)
    requires |tag| >= 3
    ensures tag[..3] <= TextField(tag, p) + x
  {
    hide Quote;
    assert (TextField(tag, p) + x)[..3] == tag[..3];
  }

  lemma OptionalNumberDelimits(tag: string, n: Option<nat>, m: Option<nat>, x: string, y: string)
    requires Unlike(tag, x) && Unlike(tag, y) && OptionalNumber(tag, n) + x == OptionalNumber(tag, m) + y
    ensures n == m && x == y
  {
    hide NumberField;
    assert "" + x == x && "" + y == y;
    if n.Some? { NumberBegins(tag, n.value, x); }
    if m.Some? { NumberBegins(tag, m.value, y); }
    if n.Some? && m.Some? { NumberFieldDelimits(tag, n.value, m.value, x, y); }
  }

  lemma OptionalTextDelimits(tag: string, p: Option<string>, q: Option<string>, x: string, y: string)
    requires Unlike(tag, x) && Unlike(tag, y) && OptionalText(tag, p) + x == OptionalText(tag, q) + y
    ensures p == q && x == y
  {
    hide TextField;
    assert "" + x == x && "" + y == y;
    if p.Some? { TextBegins(tag, p.value, x); }
    if q.Some? { TextBegins(tag, q.value, y); }
    if p.Some? && q.Some? { TextFieldDelimits(tag, p.value, q.value, x, y); }
  }

  // -------------------------------------------------------------------- rows

  const META := "{\"op\":\"journal-meta\"" + SCHEMA
  const SEAL := "{\"op\":\"journal-seal\"" + SCHEMA
  const SCHEMA := ",\"schema\":1,\"generation\":"
  const ACK := "{\"op\":\"ack\",\"path\":"
  const MUTATION := "{\"id\":"

  const NEXT_ID := ",\"nextId\":"
  const RECORDS := ",\"records\":"
  const BYTES := ",\"bytes\":"
  const CRC := ",\"crc32\":"
  const THROUGH := ",\"throughId\":"
  const ACTION := ",\"action\":"
  const PATH := ",\"path\":"
  const OLD_PATH := ",\"oldPath\":"
  const TS := ",\"ts\":"
  const SYNCED := ",\"synced\":false"
  const HASH := ",\"hash\":"
  const MTIME := ",\"mtime\":"
  const SIZE := ",\"size\":"

  function ActionName(a: Action): string {
    match a
    case Created => "created"
    case Modified => "modified"
    case Deleted => "deleted"
    case Renamed => "renamed"
  }

  function SizePart(e: Entry): string {
    OptionalNumber(SIZE, e.meta.size) + "}"
  }

  function MtimePart(e: Entry): string {
    OptionalNumber(MTIME, e.meta.mtime) + SizePart(e)
  }

  function HashPart(e: Entry): string {
    OptionalText(HASH, e.meta.hash) + MtimePart(e)
  }

  function TimePart(e: Entry): string {
    NumberField(TS, e.meta.ts) + (SYNCED + HashPart(e))
  }

  function OldPathPart(e: Entry): string {
    OptionalText(OLD_PATH, e.oldPath) + TimePart(e)
  }

  function PathPart(e: Entry): string {
    TextField(ACTION, ActionName(e.action)) + (TextField(PATH, e.path) + OldPathPart(e))
  }

  function MutationText(e: Entry): string {
    NumberField(MUTATION, e.id) + PathPart(e)
  }

  function MetaText(generation: nat, nextId: nat): string {
    NumberField(META, generation) + (NumberField(NEXT_ID, nextId) + "}")
  }

  function SumPart(bytes: nat, crc: nat): string {
    NumberField(BYTES, bytes) + (TextField(CRC, HexText(crc)) + "}")
  }

  function SealText(generation: nat, records: nat, bytes: nat, crc: nat): string {
    NumberField(SEAL, generation) + (NumberField(RECORDS, records) + SumPart(bytes, crc))
  }

  function AckText(p: string, throughId: nat): string {
    TextField(ACK, p) + (NumberField(THROUGH, throughId) + "}")
  }

  /** A row's text. Foreign and malformed rows are never written. */
  function Render(r: Row): string {
    match r
    case MetaRow(generation, nextId) => MetaText(generation, nextId)
    case SealRow(generation, records, bytes, crc) => SealText(generation, records, bytes, crc as nat)
    case AckRow(p, throughId) => AckText(p, throughId)
    case MutationRow(e, _) => MutationText(e)
    case ForeignRow => "{\"schema\":2}"
    case MalformedRow => "[]"
  }

  lemma MetaDelimits(g: nat, n: nat, h: nat, m: nat, x: string, y: string)
    requires MetaText(g, n) + x == MetaText(h, m) + y
    ensures g == h && n == m && x == y
  {
    hide Decimal;
    var a, b := "}" + x, "}" + y;
    var c, d := NumberField(NEXT_ID, n) + a, NumberField(NEXT_ID, m) + b;
    assert MetaText(g, n) + x == NumberField(META, g) + c && MetaText(h, m) + y == NumberField(META, h) + d;
    assert c[0] == ',' && d[0] == ',';
    NumberFieldDelimits(META, g, h, c, d);
    NumberFieldDelimits(NEXT_ID, n, m, a, b);
    TagDelimits("}", x, y);
  }

  lemma AckDelimits(p: string, n: nat, q: string, m: nat, x: string, y: string)
    requires AckText(p, n) + x == AckText(q, m) + y
    ensures p == q && n == m && x == y
  {
    hide Decimal, Quote;
    var a, b := "}" + x, "}" + y;
    var c, d := NumberField(THROUGH, n) + a, NumberField(THROUGH, m) + b;
    assert AckText(p, n) + x == TextField(ACK, p) + c && AckText(q, m) + y == TextField(ACK, q) + d;
    TextFieldDelimits(ACK, p, q, c, d);
    NumberFieldDelimits(THROUGH, n, m, a, b);
    TagDelimits("}", x, y);
  }

  lemma SumDelimits(bytes: nat, crc: nat, other: nat, sum: nat, x: string, y: string)
    requires SumPart(bytes, crc) + x == SumPart(other, sum) + y && crc <= MAX_SAFE_INTEGER && sum <= MAX_SAFE_INTEGER
    ensures bytes == other && crc == sum && x == y
  {
    hide Decimal, Quote, HexText, HexNumber;
    var a, b := "}" + x, "}" + y;
    var c, d := TextField(CRC, HexText(crc)) + a, TextField(CRC, HexText(sum)) + b;
    assert SumPart(bytes, crc) + x == NumberField(BYTES, bytes) + c &&
      SumPart(other, sum) + y == NumberField(BYTES, other) + d;
    assert c[0] == ',' && d[0] == ',';
    NumberFieldDelimits(BYTES, bytes, other, c, d);
    TextFieldDelimits(CRC, HexText(crc), HexText(sum), a, b);
    HexTextReads(crc);
    HexTextReads(sum);
    TagDelimits("}", x, y);
  }

  lemma SumBegins(bytes: nat, crc: nat, x: string)
    ensures var s := SumPart(bytes, crc) + x; s != [] && s[0] == ','
  {
    hide Decimal, HexText, Quote;
    assert SumPart(bytes, crc)[0] == BYTES[0];
  }

  lemma WordIdentifies(a: bv32, b: bv32)
    requires a as nat == b as nat
    ensures a == b
  {
    assert a == (a as nat) as bv32 && b == (b as nat) as bv32;
  }

  lemma SealDelimits(g: nat, r: nat, b: nat, c: nat, g': nat, r': nat, b': nat, c': nat, x: string, y: string)
    requires SealText(g, r, b, c) + x == SealText(g', r', b', c') + y && c <= MAX_SAFE_INTEGER && c' <= MAX_SAFE_INTEGER
    ensures g == g' && r == r' && b == b' && c == c' && x == y
  {
    hide Decimal, SumPart;
    var s, t := SumPart(b, c) + x, SumPart(b', c') + y;
    var u, v := NumberField(RECORDS, r) + s, NumberField(RECORDS, r') + t;
    assert SealText(g, r, b, c) + x == NumberField(SEAL, g) + u &&
      SealText(g', r', b', c') + y == NumberField(SEAL, g') + v;
    assert u[0] == ',' && v[0] == ',';
    SumBegins(b, c, x);
    SumBegins(b', c', y);
    NumberFieldDelimits(SEAL, g, g', u, v);
    NumberFieldDelimits(RECORDS, r, r', s, t);
    SumDelimits(b, c, b', c', x, y);
  }

  lemma SizeDelimits(e: Entry, f: Entry, x: string, y: string)
    requires SizePart(e) + x == SizePart(f) + y
    ensures e.meta.size == f.meta.size && x == y
  {
    hide Decimal;
    assert SizePart(e) + x == OptionalNumber(SIZE, e.meta.size) + ("}" + x);
    assert SizePart(f) + y == OptionalNumber(SIZE, f.meta.size) + ("}" + y);
    assert ("}" + x)[0] == '}' && ("}" + y)[0] == '}';
    OptionalNumberDelimits(SIZE, e.meta.size, f.meta.size, "}" + x, "}" + y);
    TagDelimits("}", x, y);
  }

  /** What a size part begins with. */
  lemma SizeBegins(e: Entry, x: string)
    ensures var s := SizePart(e) + x; |s| >= 1 && (s[0] == '}' || (|s| >= 3 && s[..3] == SIZE[..3]))
  {
    hide Decimal;
    var s := SizePart(e) + x;
    if e.meta.size.Some? { assert s[0] == SIZE[0] && s[1] == SIZE[1] && s[2] == SIZE[2]; }
  }

  lemma MtimeDelimits(e: Entry, f: Entry, x: string, y: string)
    requires MtimePart(e) + x == MtimePart(f) + y
    ensures e.meta.mtime == f.meta.mtime && e.meta.size == f.meta.size && x == y
  {
    hide Decimal, SizePart, OptionalNumber;
    var a, b := SizePart(e) + x, SizePart(f) + y;
    assert MtimePart(e) + x == OptionalNumber(MTIME, e.meta.mtime) + a;
    assert MtimePart(f) + y == OptionalNumber(MTIME, f.meta.mtime) + b;
    SizeBegins(e, x);
    SizeBegins(f, y);
    assert MTIME[2] == 'm' && SIZE[2] == 's';
    OptionalNumberDelimits(MTIME, e.meta.mtime, f.meta.mtime, a, b);
    SizeDelimits(e, f, x, y);
  }

  lemma MtimeBegins(e: Entry, x: string)
    ensures var s := MtimePart(e) + x;
      |s| >= 1 && (s[0] == '}' || (|s| >= 3 && (s[..3] == SIZE[..3] || s[..3] == MTIME[..3])))
  {
    hide Decimal, SizePart;
    SizeBegins(e, x);
    var s := MtimePart(e) + x;
    if e.meta.mtime.Some? {
      assert s[0] == MTIME[0] && s[1] == MTIME[1] && s[2] == MTIME[2];
    } else {
      assert s == SizePart(e) + x;
    }
  }

  lemma HashDelimits(e: Entry, f: Entry, x: string, y: string)
    requires HashPart(e) + x == HashPart(f) + y
    ensures e.meta.hash == f.meta.hash && e.meta.mtime == f.meta.mtime && e.meta.size == f.meta.size && x == y
  {
    hide MtimePart, OptionalText;
    var a, b := MtimePart(e) + x, MtimePart(f) + y;
    assert HashPart(e) + x == OptionalText(HASH, e.meta.hash) + a;
    assert HashPart(f) + y == OptionalText(HASH, f.meta.hash) + b;
    MtimeBegins(e, x);
    MtimeBegins(f, y);
    assert HASH[2] == 'h' && MTIME[2] == 'm' && SIZE[2] == 's';
    OptionalTextDelimits(HASH, e.meta.hash, f.meta.hash, a, b);
    MtimeDelimits(e, f, x, y);
  }

  lemma TimeDelimits(e: Entry, f: Entry, x: string, y: string)
    requires TimePart(e) + x == TimePart(f) + y
    ensures e.meta == f.meta && x == y
  {
    hide HashPart, Decimal;
    var a, b := SYNCED + (HashPart(e) + x), SYNCED + (HashPart(f) + y);
    assert TimePart(e) + x == NumberField(TS, e.meta.ts) + a;
    assert TimePart(f) + y == NumberField(TS, f.meta.ts) + b;
    assert a[0] == ',' && b[0] == ',';
    NumberFieldDelimits(TS, e.meta.ts, f.meta.ts, a, b);
    TagDelimits(SYNCED, HashPart(e) + x, HashPart(f) + y);
    HashDelimits(e, f, x, y);
  }

  lemma TimeBegins(e: Entry, x: string)
    ensures var s := TimePart(e) + x; |s| >= 3 && s[..3] == TS[..3]
  {
    hide HashPart, Decimal;
    var s := TimePart(e) + x;
    assert s[0] == TS[0] && s[1] == TS[1] && s[2] == TS[2];
  }

  lemma OldPathDelimits(e: Entry, f: Entry, x: string, y: string)
    requires OldPathPart(e) + x == OldPathPart(f) + y
    ensures e.oldPath == f.oldPath && e.meta == f.meta && x == y
  {
    hide TimePart, OptionalText;
    var a, b := TimePart(e) + x, TimePart(f) + y;
    assert OldPathPart(e) + x == OptionalText(OLD_PATH, e.oldPath) + a;
    assert OldPathPart(f) + y == OptionalText(OLD_PATH, f.oldPath) + b;
    TimeBegins(e, x);
    TimeBegins(f, y);
    assert OLD_PATH[2] == 'o' && TS[2] == 't' && TS[0] == ',';
    assert a[0] == a[..3][0] && b[0] == b[..3][0];
    OptionalTextDelimits(OLD_PATH, e.oldPath, f.oldPath, a, b);
    TimeDelimits(e, f, x, y);
  }

  lemma ActionIdentifies(a: Action, b: Action)
    requires ActionName(a) == ActionName(b)
    ensures a == b
  {
    assert ActionName(a)[0] == ActionName(b)[0];
  }

  lemma PathDelimits(e: Entry, f: Entry, x: string, y: string)
    requires PathPart(e) + x == PathPart(f) + y
    ensures e.action == f.action && e.path == f.path && e.oldPath == f.oldPath && e.meta == f.meta && x == y
  {
    hide OldPathPart, ActionName, TextField;
    var a, b := OldPathPart(e) + x, OldPathPart(f) + y;
    var c, d := TextField(PATH, e.path) + a, TextField(PATH, f.path) + b;
    assert PathPart(e) + x == TextField(ACTION, ActionName(e.action)) + c;
    assert PathPart(f) + y == TextField(ACTION, ActionName(f.action)) + d;
    TextFieldDelimits(ACTION, ActionName(e.action), ActionName(f.action), c, d);
    ActionIdentifies(e.action, f.action);
    TextFieldDelimits(PATH, e.path, f.path, a, b);
    OldPathDelimits(e, f, x, y);
  }

  lemma PathBegins(e: Entry, x: string)
    ensures var s := PathPart(e) + x; s != [] && s[0] == ','
  {
    hide OldPathPart, ActionName, Quote;
    assert PathPart(e)[0] == ACTION[0];
  }

  lemma MutationDelimits(e: Entry, f: Entry, x: string, y: string)
    requires MutationText(e) + x == MutationText(f) + y
    ensures e == f && x == y
  {
    hide PathPart, NumberField;
    var a, b := PathPart(e) + x, PathPart(f) + y;
    assert MutationText(e) + x == NumberField(MUTATION, e.id) + a;
    assert MutationText(f) + y == NumberField(MUTATION, f.id) + b;
    PathBegins(e, x);
    PathBegins(f, y);
    NumberFieldDelimits(MUTATION, e.id, f.id, a, b);
    PathDelimits(e, f, x, y);
  }

  function Tag(r: Row): string {
    match r
    case MetaRow(_, _) => META
    case SealRow(_, _, _, _) => SEAL
    case AckRow(_, _) => ACK
    case _ => MUTATION
  }

  lemma BeginsWithItsTag(r: Row, x: string)
    requires Writable(r)
    ensures Tag(r) <= Render(r) + x
  {
    hide PathPart, Decimal, Quote, ValidEntry, SafePath, SumPart;
    assert Render(r)[..|Tag(r)|] == Tag(r);
  }

  /** Different kinds of rows differ in their first characters. */
  lemma TagsDiffer(a: Row, b: Row, s: string)
    requires Writable(a) && Writable(b) && Tag(a) <= s && Tag(b) <= s
    ensures Tag(a) == Tag(b)
  {
    assert META[2] == 'o' && SEAL[2] == 'o' && ACK[2] == 'o' && MUTATION[2] == 'i';
    assert META[7] == 'j' && SEAL[7] == 'j' && ACK[7] == 'a' && META[15] == 'm' && SEAL[15] == 's';
    assert s[2] == Tag(a)[2] == Tag(b)[2];
    if !a.MutationRow? {
      assert s[7] == Tag(a)[7] == Tag(b)[7];
      if !a.AckRow? { assert s[15] == Tag(a)[15] == Tag(b)[15]; }
    }
  }

  /** Rendered rows delimit themselves. */
  lemma RowDelimits(a: Row, b: Row, x: string, y: string)
    requires Writable(a) && Writable(b) && Render(a) + x == Render(b) + y
    ensures a == b && x == y
  {
    hide MetaText, SealText, AckText, MutationText, ValidEntry, SafePath;
    BeginsWithItsTag(a, x);
    BeginsWithItsTag(b, y);
    TagsDiffer(a, b, Render(a) + x);
    SameTag(a, b);
    match a {
      case MetaRow(_, _) => MetaDelimits(a.generation, a.nextId, b.generation, b.nextId, x, y);
      case SealRow(_, _, _, _) =>
        SealDelimits(a.generation, a.records, a.bytes, a.crc as nat, b.generation, b.records, b.bytes, b.crc as nat, x,
          y);
        WordIdentifies(a.crc, b.crc);
      case AckRow(_, _) => AckDelimits(a.path, a.throughId, b.path, b.throughId, x, y);
      case MutationRow(_, _) => MutationDelimits(a.entry, b.entry, x, y);
    }
  }

  lemma SameTag(a: Row, b: Row)
    requires Writable(a) && Writable(b) && Tag(a) == Tag(b)
    ensures a.MetaRow? == b.MetaRow? && a.SealRow? == b.SealRow? && a.AckRow? == b.AckRow? &&
      a.MutationRow? == b.MutationRow?
  {
    hide ValidEntry, SafePath;
    assert META[2] == 'o' && SEAL[2] == 'o' && ACK[2] == 'o' && MUTATION[2] == 'i';
    assert META[7] == 'j' && SEAL[7] == 'j' && ACK[7] == 'a' && META[15] == 'm' && SEAL[15] == 's';
  }

  // ---------------------------------------------------------- shape of lines

  /** No control characters, and at most `n` characters. */
  ghost predicate Plain(s: string, n: nat) {
    |s| <= n && forall i | 0 <= i < |s| :: s[i] >= ' '
  }

  lemma Joined(s: string, m: nat, t: string, n: nat)
    requires Plain(s, m) && Plain(t, n)
    ensures Plain(s + t, m + n)
  {
  }

  lemma PlainNumber(tag: string, n: nat)
    requires IsFinite(n) && Plain(tag, 64)
    ensures Plain(NumberField(tag, n), 1089)
  {
    hide Pow2, Decimal;
    DecimalLength(n, 1024);
    DecimalRoundTrip(n);
    assert forall i | 0 <= i < |Decimal(n)| :: Decimal(n)[i] in Decimal(n);
    Joined(tag, 64, Decimal(n), 1025);
  }

  lemma {:induction false} EscapeIsPlain(p: string)
    requires forall i | 0 <= i < |p| :: p[i] >= ' '
    ensures Plain(Escape(p), 2 * |p|)
  {
    if p != [] {
      EscapeIsPlain(p[1..]);
      Joined(if p[0] == '"' || p[0] == '\\' then ['\\', p[0]] else [p[0]], 2, Escape(p[1..]), 2 * |p[1..]|);
    }
  }

  lemma PlainText(tag: string, p: string)
    requires |p| <= 4096 && (forall i | 0 <= i < |p| :: p[i] >= ' ') && Plain(tag, 64)
    ensures Plain(TextField(tag, p), 8258)
  {
    hide Escape;
    EscapeIsPlain(p);
    Joined(['"'], 1, Escape(p), 8192);
    Joined(['"'] + Escape(p), 8193, ['"'], 1);
    Joined(tag, 64, Quote(p), 8194);
  }

  lemma {:induction false} SafeIsPlain(p: string)
    requires PrintableWithoutBackslash(p)
    ensures forall i | 0 <= i < |p| :: p[i] >= ' '
  {
    if p != [] {
      SafeIsPlain(p[1..]);
      assert forall i | 1 <= i < |p| :: p[i] == p[1..][i - 1];
    }
  }

  /** The longest row has two paths, a hash and four numbers. */
  lemma RenderedIsPlain(r: Row)
    requires Writable(r)
    ensures Plain(Render(r), ROW_LIMIT)
  {
    hide SafePath, ValidEntry, MutationText, IsFinite, NumberField, TextField, Pow2;
    match r {
      case MetaRow(generation, nextId) => MetaIsPlain(generation, nextId);
      case SealRow(generation, records, bytes, crc) => SealIsPlain(generation, records, bytes, crc as nat);
      case AckRow(p, throughId) => AckIsPlain(p, throughId);
      case MutationRow(e, _) => MutationIsPlain(e);
    }
  }

  lemma MetaIsPlain(generation: nat, nextId: nat)
    requires generation <= MAX_SAFE_INTEGER && nextId <= MAX_SAFE_INTEGER
    ensures Plain(MetaText(generation, nextId), ROW_LIMIT)
  {
    hide IsFinite, NumberField, Pow2;
    SafeIsFinite(generation);
    SafeIsFinite(nextId);
    Joined("{\"op\":\"journal-meta\"", 32, SCHEMA, 32);
    PlainNumber(META, generation);
    PlainNumber(NEXT_ID, nextId);
    Joined(NumberField(NEXT_ID, nextId), 1089, "}", 1);
    Joined(NumberField(META, generation), 1089, NumberField(NEXT_ID, nextId) + "}", 1090);
  }

  lemma AckIsPlain(p: string, throughId: nat)
    requires ValidWatermark(p, throughId)
    ensures Plain(AckText(p, throughId), ROW_LIMIT)
  {
    hide SafePath, IsFinite, NumberField, TextField, Pow2;
    SafeIsFinite(throughId);
    SafePathIsPlain(p);
    PlainText(ACK, p);
    PlainNumber(THROUGH, throughId);
    Joined(NumberField(THROUGH, throughId), 1089, "}", 1);
    Joined(TextField(ACK, p), 8258, NumberField(THROUGH, throughId) + "}", 1090);
  }

  lemma SafePathIsPlain(p: string)
    requires SafePath(p)
    ensures |p| <= 4096 && forall i | 0 <= i < |p| :: p[i] >= ' '
  {
    hide OrdinarySegments, Segments;
    SafeIsPlain(p);
  }

  lemma SealIsPlain(generation: nat, records: nat, bytes: nat, crc: nat)
    requires generation <= MAX_SAFE_INTEGER && records <= MAX_SAFE_INTEGER && bytes <= MAX_SAFE_INTEGER &&
      crc <= MAX_SAFE_INTEGER
    ensures Plain(SealText(generation, records, bytes, crc), ROW_LIMIT)
  {
    hide IsFinite, NumberField, Pow2;
    SafeIsFinite(generation);
    SafeIsFinite(records);
    SumIsPlain(bytes, crc);
    Joined("{\"op\":\"journal-seal\"", 32, SCHEMA, 32);
    PlainNumber(SEAL, generation);
    PlainNumber(RECORDS, records);
    hide SumPart, Plain;
    Joined(NumberField(RECORDS, records), 1089, SumPart(bytes, crc), 9348);
    Joined(NumberField(SEAL, generation), 1089, NumberField(RECORDS, records) + SumPart(bytes, crc), 10437);
    Longer(SealText(generation, records, bytes, crc), 11526);
  }

  lemma Longer(s: string, limit: nat)
    requires Plain(s, limit) && limit <= ROW_LIMIT
    ensures Plain(s, ROW_LIMIT)
  {}

  lemma SumIsPlain(bytes: nat, crc: nat)
    requires bytes <= MAX_SAFE_INTEGER && crc <= MAX_SAFE_INTEGER
    ensures Plain(SumPart(bytes, crc), 9348)
  {
    hide IsFinite, NumberField, TextField, Pow2, HexText, HexNumber;
    SafeIsFinite(bytes);
    PlainNumber(BYTES, bytes);
    HexTextReads(crc);
    assert forall i | 0 <= i < |HexText(crc)| :: HexText(crc)[i] in HexText(crc);
    PlainText(CRC, HexText(crc));
    Joined(TextField(CRC, HexText(crc)), 8258, "}", 1);
    Joined(NumberField(BYTES, bytes), 1089, TextField(CRC, HexText(crc)) + "}", 8259);
  }

  lemma MetadataIsPlain(e: Entry)
    requires ValidEntry(e)
    ensures Plain(HashPart(e), 10437)
  {
    hide SafePath, IsFinite, NumberField, TextField, Pow2;
    if e.meta.size.Some? {
      SafeIsFinite(e.meta.size.value);
      PlainNumber(SIZE, e.meta.size.value);
    }
    Joined(OptionalNumber(SIZE, e.meta.size), 1089, "}", 1);
    if e.meta.mtime.Some? { PlainNumber(MTIME, e.meta.mtime.value); }
    Joined(OptionalNumber(MTIME, e.meta.mtime), 1089, SizePart(e), 1090);
    if e.meta.hash.Some? { PlainText(HASH, e.meta.hash.value); }
    Joined(OptionalText(HASH, e.meta.hash), 8258, MtimePart(e), 2179);
  }

  lemma MutationIsPlain(e: Entry)
    requires ValidEntry(e)
    ensures Plain(MutationText(e), ROW_LIMIT)
  {
    hide SafePath, IsFinite, NumberField, TextField, Pow2, HashPart, ValidMetadata;
    MetadataIsPlain(e);
    PlainNumber(TS, e.meta.ts);
    Joined(SYNCED, 64, HashPart(e), 10437);
    Joined(NumberField(TS, e.meta.ts), 1089, SYNCED + HashPart(e), 10501);
    if e.oldPath.Some? {
      SafePathIsPlain(e.oldPath.value);
      PlainText(OLD_PATH, e.oldPath.value);
    }
    Joined(OptionalText(OLD_PATH, e.oldPath), 8258, TimePart(e), 11590);
    SafePathIsPlain(e.path);
    PlainText(PATH, e.path);
    Joined(TextField(PATH, e.path), 8258, OldPathPart(e), 19848);
    PlainText(ACTION, ActionName(e.action));
    Joined(TextField(ACTION, ActionName(e.action)), 8258, TextField(PATH, e.path) + OldPathPart(e), 28106);
    SafeIsFinite(e.id);
    PlainNumber(MUTATION, e.id);
    Joined(NumberField(MUTATION, e.id), 1089, PathPart(e), 36364);
  }

  // ----------------------------------------------------------------- library

  /** The text of some row that a writer produces. */
  ghost predicate IsRow(s: string) {
    exists r :: Writable(r) && Render(r) == s
  }

  ghost function Read(s: string): Option<Row> {
    if IsRow(s) then var r :| Writable(r) && Render(r) == s; Some(r) else None
  }

  /** JSON over any encoding of characters as bytes. */
  ghost function Json(utf8: string -> seq<bv8>): Library {
    Library(s => Read(s), r => Render(r), utf8)
  }

  lemma ReadsBack(r: Row)
    requires Writable(r)
    ensures Read(Render(r)) == Some(r)
  {
    hide Render, Writable;
    var s := Render(r);
    assert IsRow(s);
    var q := Read(s).value;
    assert Writable(q) && Render(q) == s;
    assert s + "" == s;
    RowDelimits(q, r, "", "");
  }

  lemma NoPrefixReads(r: Row, k: nat)
    requires Writable(r) && k < |Render(r)|
    ensures Read(Render(r)[..k]) == None
  {
    hide Render, Writable;
    var s := Render(r);
    if q :| Writable(q) && Render(q) == s[..k] {
      assert Render(q) + s[k..] == s && s + "" == s;
      RowDelimits(q, r, s[k..], "");
    }
  }

  lemma OpensWithBrace(r: Row)
    ensures Tag(r)[0] == '{'
  {
  }

  lemma BeginsOpen(r: Row, k: nat)
    requires Writable(r) && 0 < k <= |Render(r)|
    ensures !Blank(Render(r)[..k])
  {
    hide Writable, Render;
    BeginsWithItsTag(r, "");
    assert Render(r) + "" == Render(r);
    OpensWithBrace(r);
    assert Render(r)[..k][0] == Tag(r)[0];
  }

  /** The journal format's demands on its library can be met: JSON meets them. */
  lemma JsonIsFaithful(utf8: string -> seq<bv8>)
    ensures Faithful(Json(utf8))
  {
    hide Render, Writable, Blank;
    var lib := Json(utf8);
    forall r | Writable(r)
      ensures lib.parse(lib.render(r)) == Some(r)
      ensures 0 < |lib.render(r)| <= ROW_LIMIT && '\n' !in lib.render(r) && !Blank(lib.render(r))
      ensures forall k | 0 < k < |lib.render(r)| :: lib.parse(lib.render(r)[..k]) == None && !Blank(lib.render(r)[..k])
    {
      ReadsBack(r);
      RenderedIsPlain(r);
      BeginsWithItsTag(r, "");
      assert Render(r) + "" == Render(r) && Render(r)[..|Render(r)|] == Render(r);
      BeginsOpen(r, |Render(r)|);
      forall k | 0 < k < |Render(r)|
        ensures Read(Render(r)[..k]) == None && !Blank(Render(r)[..k])
      {
        NoPrefixReads(r, k);
        BeginsOpen(r, k);
      }
    }
  }

  /** With JSON every checkpoint that can be written reads back. */
  lemma JsonCheckpointRoundTrip(utf8: string -> seq<bv8>, entries: seq<Entry>, nextId: nat, generation: nat)
    requires 1 <= nextId <= MAX_SAFE_INTEGER && 1 <= generation <= MAX_SAFE_INTEGER
    requires (forall e | e in entries :: ValidEntry(e) && e.id < nextId) &&
      Sizable(Json(utf8), entries, nextId, generation)
    ensures exists id: Identity ::
              Parse(Json(utf8), CheckpointText(Json(utf8), entries, nextId, generation)) ==
              Ok(Parsed(entries, entries, map[], nextId, generation, |entries| + 2, false, Some(id)))
  {
    hide *;
    JsonIsFaithful(utf8);
    CheckpointRoundTrip(Json(utf8), entries, nextId, generation);
  }
}
