/** The paged diff codec: canonical varints, snapshot-bound cursors, pages of
    strictly ordered records, and chains of pages. */
module DiffPages {
  import opened Common
  import opened BulkCodec
  import Lex

  const PAGE_MAGIC: Bytes := [0x4f, 0x42, 0x44, 0x31]
  const CURSOR_MAGIC: Bytes := [0x4f, 0x42, 0x43, 0x31]
  const PAGE_HEADER := 74
  const CURSOR_HEADER := 74
  const MIN_PAGE_BYTES := 64 * 1024
  const MAX_PAGE_BYTES := 2 * 1024 * 1024
  const MAX_PAGE_RECORDS := 8_192
  const MAX_PATH_BYTES := 4_096
  const MAX_CURSOR_BYTES := 4 + 1 + 32 + 32 + 1 + 2 + 2 + 2 * MAX_PATH_BYTES

  // ---------------------------------------------------------------------- varints

  /** Unsigned LEB128, section 7.6 of DWARF Version 5: seven bits a byte, lowest
      first, without a redundant last byte. */
  function Leb(n: nat): (b: Bytes)
    ensures |b| > 0
  {
    if n < 128 then [n] else [128 + n % 128] + Leb(n / 128)
  }

  /** One more than the greatest value of `k` digits, the last of four bits. */
  function Cap(k: nat): nat
    requires k > 0
  {
    if k == 1 then 16 else 128 * Cap(k - 1)
  }

  /** The value at `start` with at most `k` digits, and where it ends. */
  function Varint(b: Bytes, start: nat, k: nat): (r: Option<(nat, nat)>)
    ensures r.Some? ==> start < r.value.1 <= |b|
    decreases k
  {
    if k == 0 || start >= |b| || (k == 1 && b[start] >= 16) then None
    else if b[start] < 128 then Some((b[start], start + 1))
    else
      var rest := Varint(b, start + 1, k - 1);
      if rest.None? || rest.value.0 == 0 then None else Some((b[start] as int - 128 + 128 * rest.value.0, rest.value.1))
  }

  /** Accepted varints are exactly the canonical encodings of 32-bit values. */
  lemma {:induction false} VarintIsLeb(b: Bytes, start: nat, k: nat, v: nat, e: nat)
    requires k > 0
    ensures Varint(b, start, k) == Some((v, e)) <==> (v < Cap(k) && start <= e <= |b| && b[start..e] == Leb(v))
    decreases k
  {
    hide Varint, Leb;
    CapIsLarge(k);
    VarintStep(b, start, k);
    LebStep(v);
    if start < |b| && b[start] >= 128 && k > 1 {
      var high := v / 128;
      VarintIsLeb(b, start + 1, k - 1, high, e);
      if Varint(b, start, k) == Some((v, e)) {
        Digits(b[start] as int - 128, Varint(b, start + 1, k - 1).value.0);
        assert b[start..e] == [b[start]] + b[start + 1..e];
      }
      if v < Cap(k) && start <= e <= |b| && b[start..e] == Leb(v) {
        assert b[start] == b[start..e][0];
        assert b[start..e][1..] == b[start + 1..e];
      }
    } else if v < Cap(k) && start <= e <= |b| && b[start..e] == Leb(v) {
      assert b[start] == b[start..e][0];
    }
  }

  lemma VarintStep(b: Bytes, start: nat, k: nat)
    requires k > 0
    ensures Varint(b, start, k) ==
      if start >= |b| || (k == 1 && b[start] >= 16) then None
      else if b[start] < 128 then Some((b[start], start + 1))
      else Prefixed(b[start], Varint(b, start + 1, k - 1))
  {}

  /** A continued byte in front of the rest. */
  function Prefixed(byte: int, rest: Option<(nat, nat)>): Option<(nat, nat)>
    requires byte >= 128
  {
    if rest.None? || rest.value.0 == 0 then None else Some((byte - 128 + 128 * rest.value.0, rest.value.1))
  }

  lemma LebStep(v: nat)
    ensures v < 128 ==> Leb(v) == [v]
    ensures v >= 128 ==>
      Leb(v) == [128 + v % 128] + Leb(v / 128) && Leb(v)[0] == 128 + v % 128 && Leb(v)[1..] == Leb(v / 128)
  {}

  lemma Digits(digit: nat, high: nat)
    requires digit < 128
    ensures (digit + 128 * high) / 128 == high && (digit + 128 * high) % 128 == digit
  {}

  lemma {:induction false} CapIsLarge(k: nat)
    requires k > 0
    ensures Cap(k) >= if k == 1 then 16 else 2048
  {
    if k > 1 { CapIsLarge(k - 1); }
  }

  lemma CapIs32Bits()
    ensures Cap(5) == U32_MAX + 1
  {
    assert Cap(1) == 16 && Cap(2) == 2048 && Cap(3) == 262144 && Cap(4) == 33554432;
  }

  function Power128(k: nat): nat {
    if k == 0 then 1 else 128 * Power128(k - 1)
  }

  /** A value below, and the rest of the digits at a higher place. */
  function Raised(value: nat, count: nat, rest: Option<(nat, nat)>): Option<(nat, nat)> {
    if rest.None? || (count > 0 && rest.value.0 == 0) then None
    else Some((value + Power128(count) * rest.value.0, rest.value.1))
  }

  /** `decodeVarint`: accumulates digit by digit. */
  method DecodeVarint(b: Bytes, start: nat) returns (r: Option<(nat, nat)>)
    ensures r == Varint(b, start, 5)
    ensures r.Some? ==> r.value.0 <= U32_MAX && b[start..r.value.1] == Leb(r.value.0)
  {
    hide Power128, Raised, Varint;
    VarintIsCanonical(b, start);
    var value: nat := 0;
    FirstPlace(Varint(b, start, 5));
    for count := 0 to 5
      invariant value < Power128(count) &&
        Varint(b, start, 5) == Raised(value, count, Varint(b, start + count, 5 - count))
    {
      var offset := start + count;
      DigitStep(b, start, count, value);
      if offset >= |b| { return None; }
      var byte := b[offset];
      if count == 4 && byte >= 16 { return None; }
      if byte < 128 {
        if count > 0 && value + byte * Power128(count) < Power128(count) { return None; }
        return Some((value + byte * Power128(count), offset + 1));
      }
      value := value + (byte - 128) * Power128(count);
    }
    NoDigits(b, start, value);
    return None;
  }

  lemma VarintIsCanonical(b: Bytes, start: nat)
    ensures Varint(b, start, 5).Some? ==>
      var (v, e) := Varint(b, start, 5).value; v <= U32_MAX && start <= e <= |b| && b[start..e] == Leb(v)
  {
    hide Cap, Varint, Leb;
    CapIs32Bits();
    if Varint(b, start, 5).Some? {
      VarintIsLeb(b, start, 5, Varint(b, start, 5).value.0, Varint(b, start, 5).value.1);
    }
  }

  /** What the next byte does to the value accumulated so far. */
  lemma DigitStep(b: Bytes, start: nat, count: nat, value: nat)
    requires count < 5 && value < Power128(count)
    requires Varint(b, start, 5) == Raised(value, count, Varint(b, start + count, 5 - count))
    ensures var offset := start + count;
      if offset >= |b| || (count == 4 && b[offset] >= 16) then Varint(b, start, 5) == None
      else
        var byte, place := b[offset] as int, Power128(count);
        if byte < 128 then
          && (count > 0 && value + byte * place < place ==> Varint(b, start, 5) == None)
          && (count == 0 || value + byte * place >= place ==>
            Varint(b, start, 5) == Some((value + byte * place, offset + 1)))
        else
          && 0 <= value + (byte - 128) * place < Power128(count + 1)
          && Varint(b, start, 5) == Raised(value + (byte - 128) * place, count + 1, Varint(b, offset + 1, 4 - count))
  {
    hide Power128, Varint, Raised;
    var offset := start + count;
    VarintStep(b, offset, 5 - count);
    NothingRaised(value, count);
    if offset < |b| {
      if b[offset] < 128 {
        LastDigit(value, count, b[offset], offset + 1);
      } else if count < 4 {
        NextDigit(value, count, b[offset], Varint(b, offset + 1, 4 - count));
      }
    }
  }

  lemma NothingRaised(value: nat, count: nat)
    ensures Raised(value, count, None) == None
  {}

  lemma LastDigit(value: nat, count: nat, byte: int, end: nat)
    requires value < Power128(count) && 0 <= byte < 128
    ensures var sum := value + byte * Power128(count);
      Raised(value, count, Some((byte, end))) == if count > 0 && sum < Power128(count) then None else Some((sum, end))
  {
    hide Power128;
    NextPlace(value, count, byte, None);
  }

  lemma NextDigit(value: nat, count: nat, byte: int, rest: Option<(nat, nat)>)
    requires value < Power128(count) && 128 <= byte < 256
    ensures var sum := value + (byte - 128) * Power128(count);
      0 <= sum < Power128(count + 1) && Raised(value, count, Prefixed(byte, rest)) == Raised(sum, count + 1, rest)
  {
    hide Power128;
    NextPlace(value, count, byte, rest);
  }

  lemma NoDigits(b: Bytes, start: nat, value: nat)
    ensures Raised(value, 5, Varint(b, start + 5, 0)) == None
  {
  }

  lemma FirstPlace(v: Option<(nat, nat)>)
    ensures Power128(0) == 1 && Raised(0, 0, v) == v
  {
  }

  lemma NextPlace(value: nat, count: nat, byte: int, rest: Option<(nat, nat)>)
    requires value < Power128(count) && 0 <= byte < 256
    ensures Power128(count + 1) == 128 * Power128(count)
    ensures (value + byte * Power128(count) < Power128(count)) <==> byte == 0
    ensures byte >= 128 ==> 0 <= value + (byte - 128) * Power128(count) < Power128(count + 1)
    ensures byte >= 128 && rest.Some? ==>
      value + Power128(count) * (byte - 128 + 128 * rest.value.0)
      == value + (byte - 128) * Power128(count) + Power128(count + 1) * rest.value.0
    ensures byte * Power128(count) == Power128(count) * byte
  {
    var p := Power128(count);
    Multiples(p, byte);
    if byte >= 128 {
      Multiples(p, byte - 128);
      if rest.Some? { Distributes(p, byte - 128, rest.value.0); }
    }
  }

  lemma Multiples(p: nat, d: nat)
    ensures d == 0 ==> d * p == 0
    ensures d > 0 ==> d * p >= p
    ensures d < 128 ==> d * p <= 127 * p
    ensures d * p == p * d
  {
  }

  lemma Distributes(p: nat, d: nat, r: nat)
    ensures p * (d + 128 * r) == d * p + (128 * p) * r
  {
    assert p * (128 * r) == (128 * p) * r;
  }

  // ---------------------------------------------------------------- fixed fields

  function U16(n: nat): (b: Bytes)
    ensures |b| == 2
  {
    [n % 256, n / 256 % 256]
  }

  function ReadU16(b: Bytes, offset: nat): (n: nat)
    requires offset + 2 <= |b|
    ensures n < 65536
  {
    b[offset] as int + 256 * b[offset + 1] as int
  }

  lemma HalfRoundTrip(b: Bytes, offset: nat, n: nat)
    requires offset + 2 <= |b| && n < 65536
    ensures ReadU16(b, offset) == n <==> b[offset..offset + 2] == U16(n)
  {
    assert b[offset..offset + 2] == [b[offset], b[offset + 1]];
    LowByte(b[offset], b[offset + 1]);
    assert n == n % 256 + 256 * (n / 256);
  }

  const TWO_TO_32: nat := 0x1_0000_0000

  function U64(n: nat): (b: Bytes)
    ensures |b| == 8
  {
    U32(n % TWO_TO_32) + U32(n / TWO_TO_32)
  }

  /** `readSafeU64`: the high word has at most 21 bits. */
  function ReadSafeU64(b: Bytes, offset: nat): (r: Option<nat>)
    requires offset + 8 <= |b|
    ensures r.Some? ==> r.value <= MAX_SAFE_INTEGER
  {
    var low, high := ReadU32(b, offset), ReadU32(b, offset + 4);
    if high > 0x1fffff then None else Some(high * TWO_TO_32 + low)
  }

  lemma SafeRoundTrip(b: Bytes, offset: nat, n: nat)
    requires offset + 8 <= |b|
    ensures ReadSafeU64(b, offset) == Some(n) <==> n <= MAX_SAFE_INTEGER && b[offset..offset + 8] == U64(n)
  {
    hide U32, ReadU32;
    assert b[offset..offset + 8] == b[offset..offset + 4] + b[offset + 4..offset + 8];
    var low, high := ReadU32(b, offset), ReadU32(b, offset + 4);
    WordRoundTrip(b, offset, low);
    WordRoundTrip(b, offset + 4, high);
    if n <= MAX_SAFE_INTEGER {
      WordRoundTrip(b, offset, n % TWO_TO_32);
      WordRoundTrip(b, offset + 4, n / TWO_TO_32);
      assert U64(n)[..4] == U32(n % TWO_TO_32) && U64(n)[4..] == U32(n / TWO_TO_32);
      assert b[offset..offset + 8][..4] == b[offset..offset + 4] &&
        b[offset..offset + 8][4..] == b[offset + 4..offset + 8];
    }
  }

  // ------------------------------------------------------------------------ paths

  /** Decodes UTF-8 text; malformed bytes have none. */
  type Decoder = Bytes -> Option<string>

  datatype PageLimits = PageLimits(maxBytes: int, maxRecords: int, maxPathBytes: int)

  predicate ValidPageLimits(l: PageLimits) {
    && MIN_PAGE_BYTES <= l.maxBytes <= MAX_PAGE_BYTES
    && 1 <= l.maxRecords <= MAX_PAGE_RECORDS
    && 1 <= l.maxPathBytes <= MAX_PATH_BYTES
  }

  /** `decodePath`, with the length limits of its callers. */
  predicate GoodPath(text: Decoder, p: Bytes, l: PageLimits) {
    1 <= |p| <= l.maxPathBytes && text(p).Some? && SafePath(text(p).value)
  }

  /** A length-prefixed path. */
  function PathField(p: Bytes): Bytes {
    Leb(|p|) + p
  }

  function DecodePathField(text: Decoder, b: Bytes, offset: nat, l: PageLimits): (r: Option<(Bytes, nat)>)
    ensures r.Some? ==> offset < r.value.1 <= |b|
  {
    var length := Varint(b, offset, 5);
    if length.None? || length.value.1 + length.value.0 > |b| then None
    else
      var end := length.value.1 + length.value.0;
      var p := b[length.value.1..end];
      if GoodPath(text, p, l) then Some((p, end)) else None
  }

  lemma PathRoundTrip(text: Decoder, b: Bytes, offset: nat, l: PageLimits, p: Bytes, end: nat)
    requires l.maxPathBytes <= MAX_PATH_BYTES
    ensures DecodePathField(text, b, offset, l) == Some((p, end)) <==>
            GoodPath(text, p, l) && offset <= end <= |b| && b[offset..end] == PathField(p)
  {
    hide Leb, Varint, SafePath, Cap;
    CapIs32Bits();
    if DecodePathField(text, b, offset, l) == Some((p, end)) {
      var mid := end - |p|;
      VarintIsLeb(b, offset, 5, |p|, mid);
      assert b[offset..end] == b[offset..mid] + b[mid..end];
    }
    if GoodPath(text, p, l) && offset <= end <= |b| && b[offset..end] == PathField(p) {
      var mid := offset + |Leb(|p|)|;
      Slices(b, offset, end, 0, mid - offset);
      Slices(b, offset, end, mid - offset, end - offset);
      assert PathField(p)[0..mid - offset] == Leb(|p|) && PathField(p)[mid - offset..end - offset] == p;
      VarintIsLeb(b, offset, 5, |p|, mid);
    }
  }

  // ---------------------------------------------------------------------- cursors

  /** What orders records: target path, then action, then rename source. */
  datatype Key = Key(path: Bytes, action: int, oldPath: Bytes)

  datatype Cursor = Cursor(fromRoot: Bytes, toRoot: Bytes, key: Key)

  predicate GoodKey(text: Decoder, k: Key, l: PageLimits) {
    && 1 <= k.action <= 4 && GoodPath(text, k.path, l)
    && (k.action == 4 <==> k.oldPath != [])
    && (k.oldPath != [] ==> GoodPath(text, k.oldPath, l) && text(k.oldPath) != text(k.path))
  }

  function CursorBytes(c: Cursor): Bytes
    requires 0 <= c.key.action < 256
  {
    CURSOR_MAGIC + [1] + c.fromRoot + c.toRoot + [c.key.action] + U16(|c.key.path|) + U16(|c.key.oldPath|) +
      c.key.path + c.key.oldPath
  }

  predicate GoodCursor(text: Decoder, c: Cursor, l: PageLimits) {
    |c.fromRoot| == 32 && |c.toRoot| == 32 && GoodKey(text, c.key, l)
  }

  /** `decodeCursor`. */
  function DecodeCursor(text: Decoder, b: Bytes, l: PageLimits): (r: Option<Cursor>)
    ensures r.Some? ==> |r.value.fromRoot| == 32 && |r.value.toRoot| == 32
  {
    if |b| < CURSOR_HEADER || |b| > MAX_CURSOR_BYTES || b[..4] != CURSOR_MAGIC || b[4] != 1 then None
    else
      var action, pathLength, oldLength := b[69], ReadU16(b, 70), ReadU16(b, 72);
      var pathEnd := CURSOR_HEADER + pathLength;
      if action < 1 || action > 4 || pathEnd + oldLength != |b| then None
      else
        var key := Key(b[CURSOR_HEADER..pathEnd], action, b[pathEnd..]);
        if GoodKey(text, key, l) then Some(Cursor(b[5..37], b[37..69], key)) else None
  }

  lemma CursorFields(c: Cursor)
    requires |c.fromRoot| == 32 && |c.toRoot| == 32 && 0 <= c.key.action < 256
    ensures var b, p := CursorBytes(c), |c.key.path|;
      && |b| == CURSOR_HEADER + p + |c.key.oldPath| && b[..4] == CURSOR_MAGIC && b[4] == 1
      && b[5..37] == c.fromRoot && b[37..69] == c.toRoot && b[69] == c.key.action
      && b[70..72] == U16(p) && b[72..74] == U16(|c.key.oldPath|)
      && b[74..74 + p] == c.key.path && b[74 + p..] == c.key.oldPath
  {
    hide U16;
  }

  lemma CursorPieces(b: Bytes, p: nat)
    requires CURSOR_HEADER + p <= |b|
    ensures b == b[..4] + [b[4]] + b[5..37] + b[37..69] + [b[69]] + b[70..72] + b[72..74] + b[74..74 + p] + b[74 + p..]
  {
    assert b[..5] == b[..4] + [b[4]];
    assert b[..37] == b[..5] + b[5..37];
    assert b[..69] == b[..37] + b[37..69];
    assert b[..70] == b[..69] + [b[69]];
    assert b[..72] == b[..70] + b[70..72];
    assert b[..74] == b[..72] + b[72..74];
    assert b[..74 + p] == b[..74] + b[74..74 + p];
  }

  /** Accepted cursors are exactly the encodings of good cursors. */
  lemma CursorRoundTrip(text: Decoder, b: Bytes, l: PageLimits, c: Cursor)
    requires l.maxPathBytes <= MAX_PATH_BYTES
    ensures DecodeCursor(text, b, l) == Some(c) <==> GoodCursor(text, c, l) && b == CursorBytes(c)
  {
    hide U16, ReadU16, SafePath;
    if DecodeCursor(text, b, l) == Some(c) {
      HalfRoundTrip(b, 70, |c.key.path|);
      HalfRoundTrip(b, 72, |c.key.oldPath|);
      CursorPieces(b, |c.key.path|);
    }
    if GoodCursor(text, c, l) && b == CursorBytes(c) {
      CursorFields(c);
      HalfRoundTrip(b, 70, |c.key.path|);
      HalfRoundTrip(b, 72, |c.key.oldPath|);
    }
  }

  // ---------------------------------------------------------------------- records

  datatype Payload = Payload(hash: Bytes, size: nat, mtime: nat)

  datatype Delta = Delta(key: Key, payload: Option<Payload>)

  predicate GoodPayload(p: Payload) {
    |p.hash| == 32 && p.size <= MAX_SAFE_INTEGER && p.mtime <= MAX_SAFE_INTEGER
  }

  /** Deletions carry no payload, everything else does. */
  predicate GoodDelta(text: Decoder, d: Delta, l: PageLimits) {
    && GoodKey(text, d.key, l) && (d.key.action == 3 <==> d.payload.None?)
    && (d.payload.Some? ==> GoodPayload(d.payload.value))
  }

  function PayloadBytes(p: Payload): Bytes {
    p.hash + U64(p.size) + U64(p.mtime)
  }

  function DeltaBytes(d: Delta): Bytes
    requires 0 <= d.key.action < 256
  {
    [d.key.action] + PathField(d.key.path)
    + (if d.key.action == 4 then PathField(d.key.oldPath) else [])
    + (if d.payload.Some? then PayloadBytes(d.payload.value) else [])
  }

  function DecodePayload(b: Bytes, offset: nat): (r: Option<(Payload, nat)>)
    ensures r.Some? ==> r.value.1 == offset + 48 <= |b|
  {
    if offset + 48 > |b| then None
    else
      var size, mtime := ReadSafeU64(b, offset + 32), ReadSafeU64(b, offset + 40);
      if size.None? || mtime.None? then None
      else Some((Payload(b[offset..offset + 32], size.value, mtime.value), offset + 48))
  }

  lemma PayloadRoundTrip(b: Bytes, offset: nat, p: Payload, end: nat)
    ensures DecodePayload(b, offset) == Some((p, end)) <==>
            GoodPayload(p) && offset <= end <= |b| && b[offset..end] == PayloadBytes(p)
  {
    hide U64, ReadSafeU64;
    if offset + 48 <= |b| && end == offset + 48 {
      SafeRoundTrip(b, offset + 32, p.size);
      SafeRoundTrip(b, offset + 40, p.mtime);
      assert b[offset..end] == b[offset..offset + 32] + b[offset + 32..offset + 40] + b[offset + 40..end];
      if GoodPayload(p) && b[offset..end] == PayloadBytes(p) {
        Slices(b, offset, end, 0, 32);
        Slices(b, offset, end, 32, 40);
        Slices(b, offset, end, 40, 48);
        assert PayloadBytes(p)[0..32] == p.hash && PayloadBytes(p)[32..40] == U64(p.size) &&
          PayloadBytes(p)[40..48] == U64(p.mtime);
      }
    }
  }

  /** Action, path and rename source of the record at `offset`. */
  function DecodeKey(text: Decoder, b: Bytes, offset: nat, l: PageLimits): (r: Option<(Key, nat)>)
    ensures r.Some? ==> offset < r.value.1 <= |b|
  {
    if offset >= |b| || b[offset] < 1 || b[offset] > 4 then None
    else
      var path := DecodePathField(text, b, offset + 1, l);
      if path.None? then None
      else if b[offset] != 4 then Some((Key(path.value.0, b[offset], []), path.value.1))
      else
        var source := DecodePathField(text, b, path.value.1, l);
        if source.None? || text(source.value.0) == text(path.value.0) then None
        else Some((Key(path.value.0, b[offset], source.value.0), source.value.1))
  }

  function KeyBytes(k: Key): Bytes
    requires 0 <= k.action < 256
  {
    [k.action] + PathField(k.path) + (if k.action == 4 then PathField(k.oldPath) else [])
  }

  lemma KeyRoundTrip(text: Decoder, b: Bytes, offset: nat, l: PageLimits, k: Key, end: nat)
    requires l.maxPathBytes <= MAX_PATH_BYTES && 0 <= k.action < 256
    ensures DecodeKey(text, b, offset, l) == Some((k, end)) <==>
            GoodKey(text, k, l) && offset <= end <= |b| && b[offset..end] == KeyBytes(k)
  {
    hide GoodKey, KeyBytes, DecodeKey;
    if DecodeKey(text, b, offset, l) == Some((k, end)) { DecodedKey(text, b, offset, l, k, end); }
    if GoodKey(text, k, l) && offset <= end <= |b| && b[offset..end] == KeyBytes(k) {
      EncodedKey(text, b, offset, l, k, end);
    }
  }

  lemma DecodedKey(text: Decoder, b: Bytes, offset: nat, l: PageLimits, k: Key, end: nat)
    requires l.maxPathBytes <= MAX_PATH_BYTES && 0 <= k.action < 256 && DecodeKey(text, b, offset, l) == Some((k, end))
    ensures GoodKey(text, k, l) && offset <= end <= |b| && b[offset..end] == KeyBytes(k)
  {
    hide GoodPath, PathField, DecodePathField;
    var mid := DecodePathField(text, b, offset + 1, l).value.1;
    PathRoundTrip(text, b, offset + 1, l, k.path, mid);
    GoodIsNotEmpty(text, k.path, l);
    Pieces(b, offset, offset + 1, mid);
    if k.action == 4 {
      PathRoundTrip(text, b, mid, l, k.oldPath, end);
      GoodIsNotEmpty(text, k.oldPath, l);
      Pieces(b, offset, mid, end);
    }
  }

  lemma Pieces(b: Bytes, start: nat, mid: nat, end: nat)
    requires start <= mid <= end <= |b|
    ensures b[start..end] == b[start..mid] + b[mid..end]
  {
  }

  lemma EncodedKey(text: Decoder, b: Bytes, offset: nat, l: PageLimits, k: Key, end: nat)
    requires l.maxPathBytes <= MAX_PATH_BYTES && 0 <= k.action < 256
    requires GoodKey(text, k, l) && offset <= end <= |b| && b[offset..end] == KeyBytes(k)
    ensures DecodeKey(text, b, offset, l) == Some((k, end))
  {
    hide GoodPath, PathField, DecodePathField;
    var mid := offset + 1 + |PathField(k.path)|;
    assert b[offset] == b[offset..end][0];
    Slices(b, offset, end, 1, mid - offset);
    Slices(b, offset, end, mid - offset, end - offset);
    assert KeyBytes(k)[1..mid - offset] == PathField(k.path);
    assert KeyBytes(k)[mid - offset..end - offset] == if k.action == 4 then PathField(k.oldPath) else [];
    PathRoundTrip(text, b, offset + 1, l, k.path, mid);
    PathRoundTrip(text, b, mid, l, k.oldPath, end);
  }

  lemma GoodIsNotEmpty(text: Decoder, p: Bytes, l: PageLimits)
    requires GoodPath(text, p, l)
    ensures p != []
  {
  }

  /** One record of a page. */
  function DecodeDelta(text: Decoder, b: Bytes, offset: nat, l: PageLimits): (r: Option<(Delta, nat)>)
    ensures r.Some? ==> offset < r.value.1 <= |b|
  {
    var key := DecodeKey(text, b, offset, l);
    if key.None? then None
    else if key.value.0.action == 3 then Some((Delta(key.value.0, None), key.value.1))
    else
      var payload := DecodePayload(b, key.value.1);
      if payload.None? then None else Some((Delta(key.value.0, Some(payload.value.0)), payload.value.1))
  }

  /** Accepted records are exactly the encodings of good records. */
  lemma DeltaRoundTrip(text: Decoder, b: Bytes, offset: nat, l: PageLimits, d: Delta, end: nat)
    requires l.maxPathBytes <= MAX_PATH_BYTES && 0 <= d.key.action < 256
    ensures DecodeDelta(text, b, offset, l) == Some((d, end)) <==>
            GoodDelta(text, d, l) && offset <= end <= |b| && b[offset..end] == DeltaBytes(d)
  {
    hide DecodeKey, DecodePayload, PayloadBytes, PathField, GoodPath, GoodPayload;
    if DecodeDelta(text, b, offset, l) == Some((d, end)) {
      var mid := DecodeKey(text, b, offset, l).value.1;
      KeyRoundTrip(text, b, offset, l, d.key, mid);
      if d.payload.Some? {
        PayloadRoundTrip(b, mid, d.payload.value, end);
        assert b[offset..end] == b[offset..mid] + b[mid..end];
      }
    }
    if GoodDelta(text, d, l) && offset <= end <= |b| && b[offset..end] == DeltaBytes(d) {
      var mid := offset + |KeyBytes(d.key)|;
      Slices(b, offset, end, 0, mid - offset);
      Slices(b, offset, end, mid - offset, end - offset);
      assert DeltaBytes(d)[0..mid - offset] == KeyBytes(d.key);
      assert DeltaBytes(d)[mid - offset..end - offset] == if d.payload.Some? then PayloadBytes(d.payload.value) else [];
      KeyRoundTrip(text, b, offset, l, d.key, mid);
      if d.payload.Some? { PayloadRoundTrip(b, mid, d.payload.value, end); }
    }
  }

  // ------------------------------------------------------------------------ order

  /** `compareBytes`. */
  method CompareBytes(a: Bytes, b: Bytes) returns (r: int)
    ensures r == 0 <==> a == b
    ensures r < 0 <==> Lex.Less(a, b)
  {
    var common := Min(|a|, |b|);
    for i := 0 to common
      invariant a[..i] == b[..i]
    {
      if a[i] != b[i] {
        FirstDifference(a, b, i);
        return a[i] as int - b[i] as int;
      }
    }
    NoDifference(a, b, common);
    return |a| - |b|;
  }

  lemma FirstDifference(a: Bytes, b: Bytes, i: nat)
    requires i < |a| && i < |b| && a[..i] == b[..i] && a[i] != b[i]
    ensures Lex.Less(a, b) <==> a[i] < b[i]
  {
    Lex.CommonPrefix(a[..i], a[i..], b[i..]);
    assert a == a[..i] + a[i..] && b == b[..i] + b[i..];
    assert a[i..][0] == a[i] && b[i..][0] == b[i];
  }

  lemma NoDifference(a: Bytes, b: Bytes, n: nat)
    requires n == Min(|a|, |b|) && a[..n] == b[..n]
    ensures Lex.Less(a, b) <==> |a| < |b|
    ensures a == b <==> |a| == |b|
  {
    Lex.CommonPrefix(a[..n], a[n..], b[n..]);
    assert a == a[..n] + a[n..] && b == b[..n] + b[n..];
  }

  /** Path first, then action, then rename source. */
  predicate KeyLess(a: Key, b: Key) {
    if a.path != b.path then Lex.Less(a.path, b.path)
    else if a.action != b.action then a.action < b.action
    else Lex.Less(a.oldPath, b.oldPath)
  }

  /** `compareKeys`. */
  method CompareKeys(a: Key, b: Key) returns (r: int)
    ensures r == 0 <==> a == b
    ensures r < 0 <==> KeyLess(a, b)
  {
    hide Lex.Less;
    Lex.Irreflexive(a.path);
    r := CompareBytes(a.path, b.path);
    if r != 0 { return; }
    if a.action != b.action { return a.action - b.action; }
    r := CompareBytes(a.oldPath, b.oldPath);
  }

  // ------------------------------------------------------------------------ pages

  datatype DiffPage = DiffPage(fromRoot: Bytes, toRoot: Bytes, deltas: seq<Delta>, nextCursor: Option<Bytes>)

  predicate AllGood(text: Decoder, ds: seq<Delta>, l: PageLimits) {
    forall i | 0 <= i < |ds| :: GoodDelta(text, ds[i], l)
  }

  predicate AllEncodable(ds: seq<Delta>) {
    forall i | 0 <= i < |ds| :: 0 <= ds[i].key.action < 256
  }

  function Deltas(ds: seq<Delta>): Bytes
    requires AllEncodable(ds)
  {
    if ds == [] then [] else Deltas(ds[..|ds| - 1]) + DeltaBytes(ds[|ds| - 1])
  }

  function DecodeDeltas(text: Decoder, b: Bytes, offset: nat, count: nat, l: PageLimits): (r: Option<(seq<Delta>, nat)>)
    ensures r.Some? ==> |r.value.0| == count && r.value.1 >= offset
  {
    if count == 0 then Some(([], offset))
    else
      var before := DecodeDeltas(text, b, offset, count - 1, l);
      if before.None? then None
      else
        var next := DecodeDelta(text, b, before.value.1, l);
        if next.None? then None else Some((before.value.0 + [next.value.0], next.value.1))
  }

  lemma {:induction false} DecodedDeltas(text: Decoder, b: Bytes, offset: nat, count: nat, l: PageLimits)
    requires l.maxPathBytes <= MAX_PATH_BYTES && offset <= |b| && DecodeDeltas(text, b, offset, count, l).Some?
    ensures var (ds, end) := DecodeDeltas(text, b, offset, count, l).value;
      AllGood(text, ds, l) && AllEncodable(ds) && offset <= end <= |b| && b[offset..end] == Deltas(ds)
  {
    hide DecodeDelta, DeltaBytes, GoodDelta;
    if count > 0 {
      DecodedDeltas(text, b, offset, count - 1, l);
      var (before, mid) := DecodeDeltas(text, b, offset, count - 1, l).value;
      var (d, end) := DecodeDelta(text, b, mid, l).value;
      ActionsAreBytes(text, b, mid, l);
      DeltaRoundTrip(text, b, mid, l, d, end);
      assert (before + [d])[..count - 1] == before;
      assert b[offset..end] == b[offset..mid] + b[mid..end];
    }
  }

  lemma ActionsAreBytes(text: Decoder, b: Bytes, offset: nat, l: PageLimits)
    requires DecodeDelta(text, b, offset, l).Some?
    ensures 0 <= DecodeDelta(text, b, offset, l).value.0.key.action < 256
  {
  }

  lemma DeltasSplit(ds: seq<Delta>)
    requires AllEncodable(ds)
    ensures ds == [] ==> Deltas(ds) == []
    ensures ds != [] ==> Deltas(ds) == Deltas(ds[..|ds| - 1]) + DeltaBytes(ds[|ds| - 1])
  {
    hide DeltaBytes;
  }

  lemma DecodeOneMore(text: Decoder, b: Bytes, offset: nat, ds: seq<Delta>, mid: nat, d: Delta, end: nat, l: PageLimits)
    requires DecodeDeltas(text, b, offset, |ds|, l) == Some((ds, mid)) && DecodeDelta(text, b, mid, l) == Some((d, end))
    ensures DecodeDeltas(text, b, offset, |ds| + 1, l) == Some((ds + [d], end))
  {
    hide DecodeDelta;
  }

  lemma {:induction false} EncodedDeltas(text: Decoder, b: Bytes, offset: nat, ds: seq<Delta>, l: PageLimits)
    requires l.maxPathBytes <= MAX_PATH_BYTES && AllGood(text, ds, l) && AllEncodable(ds)
    requires offset + |Deltas(ds)| <= |b| && b[offset..offset + |Deltas(ds)|] == Deltas(ds)
    ensures DecodeDeltas(text, b, offset, |ds|, l) == Some((ds, offset + |Deltas(ds)|))
    decreases |ds|
  {
    hide DecodeDelta, DeltaBytes, GoodDelta, Deltas, DecodeDeltas;
    DeltasSplit(ds);
    if ds == [] {
      NoDeltas(text, b, offset, l);
    } else {
      var n := |ds| - 1;
      var before, d := ds[..n], ds[n];
      var mid, end := offset + |Deltas(before)|, offset + |Deltas(ds)|;
      TwoPieces(b, offset, Deltas(before), DeltaBytes(d));
      EncodedDeltas(text, b, offset, before, l);
      DeltaRoundTrip(text, b, mid, l, d, end);
      DecodeOneMore(text, b, offset, before, mid, d, end, l);
      assert before + [d] == ds;
    }
  }

  lemma NoDeltas(text: Decoder, b: Bytes, offset: nat, l: PageLimits)
    ensures DecodeDeltas(text, b, offset, 0, l) == Some(([], offset))
  {
  }

  /** Each path is above the one before it, the first above `previous`. */
  predicate Ordered(previous: Option<Bytes>, ds: seq<Delta>) {
    forall i | 0 <= i < |ds| :: Above(Before(previous, ds, i), ds[i].key.path)
  }

  function Before(previous: Option<Bytes>, ds: seq<Delta>, i: nat): Option<Bytes>
    requires i <= |ds|
  {
    if i == 0 then previous else Some(ds[i - 1].key.path)
  }

  predicate Above(previous: Option<Bytes>, p: Bytes) {
    previous.Some? ==> Lex.Less(previous.value, p)
  }

  /** How a page continues a cursor and names the next one. */
  ghost predicate Continues(text: Decoder, l: PageLimits, cursor: Option<Bytes>, p: DiffPage) {
    && (cursor.None? ==> Ordered(None, p.deltas))
    && (cursor.Some? ==>
          var c := DecodeCursor(text, cursor.value, l);
          c.Some? && c.value.fromRoot == p.fromRoot && c.value.toRoot == p.toRoot &&
            Ordered(Some(c.value.key.path), p.deltas))
    && (p.nextCursor.Some? ==>
          p.deltas != [] &&
            DecodeCursor(text, p.nextCursor.value, l) ==
            Some(Cursor(p.fromRoot, p.toRoot, p.deltas[|p.deltas| - 1].key)))
  }

  datatype Request = Request(fromRoot: string, toRoot: Option<string>, cursor: Option<Bytes>, limits: PageLimits)

  predicate AllZero(b: Bytes) {
    forall i | 0 <= i < |b| :: b[i] == 0
  }

  /** The roots a request expects. */
  predicate Expected(q: Request, fromRoot: Bytes, toRoot: Bytes) {
    && |fromRoot| == 32 && |toRoot| == 32 && !AllZero(toRoot)
    && ToHex(fromRoot) == LowerText(q.fromRoot)
    && (q.toRoot.Some? ==> ToHex(toRoot) == LowerText(q.toRoot.value))
  }

  function NextBytes(p: DiffPage): Bytes {
    p.nextCursor.GetOr([])
  }

  function PageBytes(p: DiffPage): Bytes
    requires AllEncodable(p.deltas)
  {
    PAGE_MAGIC + p.fromRoot + p.toRoot + U32(|p.deltas|) + U16(|NextBytes(p)|) + NextBytes(p) + Deltas(p.deltas)
  }

  /** The pages that answer a request. */
  ghost predicate GoodPage(text: Decoder, q: Request, p: DiffPage) {
    && ValidPageLimits(q.limits) && Expected(q, p.fromRoot, p.toRoot)
    && |p.deltas| <= q.limits.maxRecords && AllGood(text, p.deltas, q.limits) && AllEncodable(p.deltas)
    && |NextBytes(p)| <= MAX_CURSOR_BYTES && p.nextCursor != Some([])
    && Continues(text, q.limits, q.cursor, p)
    && |PageBytes(p)| <= q.limits.maxBytes
  }

  lemma DeltaSize(text: Decoder, b: Bytes, offset: nat, l: PageLimits)
    requires DecodeDelta(text, b, offset, l).Some?
    ensures var (d, end) := DecodeDelta(text, b, offset, l).value; |d.key.path| + |d.key.oldPath| <= end - offset
  {
    hide Varint, SafePath;
  }

  lemma {:induction false} DecodeStops(text: Decoder, b: Bytes, offset: nat, i: nat, count: nat, l: PageLimits)
    requires i <= count
    ensures DecodeDeltas(text, b, offset, i, l).None? ==> DecodeDeltas(text, b, offset, count, l).None?
    ensures DecodeDeltas(text, b, offset, count, l).Some? && i > 0 && DecodeDeltas(text, b, offset, i, l).Some? ==>
      var ds, part := DecodeDeltas(text, b, offset, count, l).value.0, DecodeDeltas(text, b, offset, i, l).value.0;
      ds[..i] == part
    decreases count
  {
    hide DecodeDelta;
    if i < count {
      DecodeStops(text, b, offset, i, count - 1, l);
    } else if DecodeDeltas(text, b, offset, i, l).Some? {
      var ds := DecodeDeltas(text, b, offset, i, l).value.0;
      assert ds[..i] == ds;
    }
  }

  /** The record loop: every record follows the previous key, and nothing is left. */
  method ReadRecords(text: Decoder, b: Bytes, start: nat, count: nat, previous: Option<Key>, l: PageLimits)
    returns (r: Option<seq<Delta>>)
    requires start <= |b| <= l.maxBytes
    ensures r.Some? <==>
      var all := DecodeDeltas(text, b, start, count, l);
      all.Some? && all.value.1 == |b| && Ordered(PathOf(previous), all.value.0)
    ensures r.Some? ==> r.value == DecodeDeltas(text, b, start, count, l).value.0
  {
    hide DecodeDelta, DecodeDeltas, Ordered, Above;
    var deltas: seq<Delta>, offset, seen, previousKey := [], start, 0, previous;
    NoDeltas(text, b, start, l);
    NothingToOrder(PathOf(previous));
    for i := 0 to count
      invariant DecodeDeltas(text, b, start, i, l) == Some((deltas, offset)) && Ordered(PathOf(previous), deltas)
      invariant previousKey == if i == 0 then previous else Some(deltas[i - 1].key)
      invariant seen <= offset - start && offset <= |b|
    {
      var next := DecodeDelta(text, b, offset, l);
      if next.None? {
        DecodeNoMore(text, b, start, i, offset, l);
        DecodeStops(text, b, start, i + 1, count, l);
        return None;
      }
      DecodeOneMore(text, b, start, deltas, offset, next.value.0, next.value.1, l);
      DeltaSize(text, b, offset, l);
      var (d, end) := next.value;
      seen := seen + |d.key.path| + |d.key.oldPath|;
      if seen > l.maxBytes { return None; }
      var follows := FollowsKey(previousKey, d.key);
      OrderedOneMore(PathOf(previous), deltas, d);
      if !follows {
        NotOrdered(text, b, start, i + 1, count, PathOf(previous), l);
        return None;
      }
      deltas, offset, previousKey := deltas + [d], end, Some(d.key);
    }
    if offset != |b| { return None; }
    return Some(deltas);
  }

  lemma DecodeNoMore(text: Decoder, b: Bytes, start: nat, i: nat, offset: nat, l: PageLimits)
    requires DecodeDeltas(text, b, start, i, l).Some? && DecodeDeltas(text, b, start, i, l).value.1 == offset
    requires DecodeDelta(text, b, offset, l).None?
    ensures DecodeDeltas(text, b, start, i + 1, l).None?
  {
    hide DecodeDelta;
  }

  lemma NothingToOrder(previous: Option<Bytes>)
    ensures Ordered(previous, [])
  {
  }

  function PathOf(k: Option<Key>): Option<Bytes> {
    if k.Some? then Some(k.value.path) else None
  }

  /** The checks against the previous key: another path, and a greater key. */
  method FollowsKey(previous: Option<Key>, k: Key) returns (ok: bool)
    ensures ok <==> Above(PathOf(previous), k.path)
  {
    if previous.None? { return true; }
    Lex.Irreflexive(k.path);
    var pathOrder := CompareBytes(previous.value.path, k.path);
    if pathOrder == 0 { return false; }
    var order := CompareKeys(previous.value, k);
    return order < 0;
  }

  lemma OrderedOneMore(previous: Option<Bytes>, ds: seq<Delta>, d: Delta)
    ensures Ordered(previous, ds + [d]) <==>
            Ordered(previous, ds) && Above(Before(previous, ds, |ds|), d.key.path)
  {
    hide Above, Before;
    var more := ds + [d];
    forall i | 0 <= i <= |ds|
      ensures Before(previous, more, i) == Before(previous, ds, i)
    {
      SameBefore(previous, ds, d, i);
    }
    assert forall i | 0 <= i < |ds| :: more[i] == ds[i];
    assert more[|ds|] == d;
  }

  lemma SameBefore(previous: Option<Bytes>, ds: seq<Delta>, d: Delta, i: nat)
    requires i <= |ds|
    ensures Before(previous, ds + [d], i) == Before(previous, ds, i)
  {
  }

  lemma NotOrdered(text: Decoder, b: Bytes, start: nat, i: nat, count: nat, previous: Option<Bytes>, l: PageLimits)
    requires 0 < i <= count && DecodeDeltas(text, b, start, i, l).Some? &&
      !Ordered(previous, DecodeDeltas(text, b, start, i, l).value.0)
    ensures DecodeDeltas(text, b, start, count, l).Some? ==>
      !Ordered(previous, DecodeDeltas(text, b, start, count, l).value.0)
  {
    hide DecodeDelta, DecodeDeltas, Above;
    DecodeStops(text, b, start, i, count, l);
    if DecodeDeltas(text, b, start, count, l).Some? {
      var ds, part := DecodeDeltas(text, b, start, count, l).value.0, DecodeDeltas(text, b, start, i, l).value.0;
      var j :| 0 <= j < |part| && !Above(Before(previous, part, j), part[j].key.path);
      assert part[j] == ds[j] && Before(previous, part, j) == Before(previous, ds, j);
    }
  }

  /** A body that encodes a page which answers the request. */
  ghost predicate Answers(text: Decoder, q: Request, p: DiffPage, body: Bytes) {
    GoodPage(text, q, p) && body == PageBytes(p)
  }

  /** A page's fields, at their places. */
  ghost predicate Laid(body: Bytes, p: DiffPage)
    requires AllEncodable(p.deltas)
  {
    var n := |NextBytes(p)|;
    && |body| >= PAGE_HEADER + n && body[..4] == PAGE_MAGIC && body[4..36] == p.fromRoot && body[36..68] == p.toRoot
    && ReadU32(body, 68) == |p.deltas| && ReadU16(body, 72) == n
    && body[74..74 + n] == NextBytes(p) && body[74 + n..] == Deltas(p.deltas)
  }

  lemma PagePieces(b: Bytes, n: nat)
    requires PAGE_HEADER + n <= |b|
    ensures b == b[..4] + b[4..36] + b[36..68] + b[68..72] + b[72..74] + b[74..74 + n] + b[74 + n..]
  {
    assert b[..36] == b[..4] + b[4..36];
    assert b[..68] == b[..36] + b[36..68];
    assert b[..72] == b[..68] + b[68..72];
    assert b[..74] == b[..72] + b[72..74];
    assert b[..74 + n] == b[..74] + b[74..74 + n];
  }

  lemma PageFields(m: Bytes, f: Bytes, t: Bytes, c: Bytes, h: Bytes, x: Bytes, d: Bytes)
    requires |m| == 4 && |f| == 32 && |t| == 32 && |c| == 4 && |h| == 2
    ensures var b, n := m + f + t + c + h + x + d, |x|;
      && |b| == PAGE_HEADER + n + |d| && b[..4] == m && b[4..36] == f && b[36..68] == t && b[68..72] == c
      && b[72..74] == h
      && b[74..74 + n] == x && b[74 + n..] == d
  {
  }

  lemma PageRoundTrip(body: Bytes, p: DiffPage)
    requires AllEncodable(p.deltas) && |p.fromRoot| == 32 && |p.toRoot| == 32 && |p.deltas| <= U32_MAX &&
      |NextBytes(p)| < 65536
    ensures body == PageBytes(p) <==> Laid(body, p)
  {
    hide U32, U16, ReadU32, ReadU16, Deltas, NextBytes;
    var n := |NextBytes(p)|;
    PageFields(PAGE_MAGIC, p.fromRoot, p.toRoot, U32(|p.deltas|), U16(n), NextBytes(p), Deltas(p.deltas));
    if |body| >= PAGE_HEADER + n {
      WordRoundTrip(body, 68, |p.deltas|);
      HalfRoundTrip(body, 72, n);
      PagePieces(body, n);
    }
  }

  /** A good page is found where its bytes are. */
  ghost predicate Found(text: Decoder, q: Request, body: Bytes, p: DiffPage)
  {
    var n := |NextBytes(p)|;
    && Expected(q, p.fromRoot, p.toRoot) && Continues(text, q.limits, q.cursor, p) && n <= MAX_CURSOR_BYTES
    && p.nextCursor != Some([])
    && PAGE_HEADER + n <= |body| <= q.limits.maxBytes && body[..4] == PAGE_MAGIC && body[4..36] == p.fromRoot
    && body[36..68] == p.toRoot
    && ReadU32(body, 68) == |p.deltas| <= q.limits.maxRecords && ReadU16(body, 72) == n
    && body[74..74 + n] == NextBytes(p)
    && DecodeDeltas(text, body, 74 + n, |p.deltas|, q.limits) == Some((p.deltas, |body|))
  }

  /** The accepted pages of a body are exactly the good pages it encodes. */
  lemma FoundIsGood(text: Decoder, q: Request, body: Bytes, p: DiffPage)
    requires ValidPageLimits(q.limits)
    ensures Found(text, q, body, p) <==> Answers(text, q, p, body)
  {
    hide U32, U16, ReadU32, ReadU16, Deltas, NextBytes, DecodeDeltas, Continues, GoodDelta, Expected, PageBytes;
    ExpectedRoots(q, p.fromRoot, p.toRoot);
    var n := |NextBytes(p)|;
    if Found(text, q, body, p) {
      DecodedDeltas(text, body, 74 + n, |p.deltas|, q.limits);
      assert body[74 + n..|body|] == body[74 + n..];
      PageRoundTrip(body, p);
    }
    if GoodPage(text, q, p) && body == PageBytes(p) {
      PageRoundTrip(body, p);
      var tail := body[74 + n..];
      assert 74 + n + |tail| == |body| && body[74 + n..74 + n + |tail|] == tail;
      EncodedDeltas(text, body, 74 + n, p.deltas, q.limits);
    }
  }

  lemma ExpectedRoots(q: Request, fromRoot: Bytes, toRoot: Bytes)
    ensures Expected(q, fromRoot, toRoot) ==> |fromRoot| == 32 && |toRoot| == 32
  {
  }

  /** Two pages found in one body are the same. */
  lemma FoundOnce(text: Decoder, q: Request, body: Bytes, p: DiffPage, r: DiffPage)
    requires Found(text, q, body, p) && Found(text, q, body, r)
    ensures p == r
  {
    hide ReadU32, ReadU16, DecodeDeltas, Continues, Expected;
    assert NextBytes(p) == NextBytes(r);
  }

  /** `decodeDiffPage`: accepts exactly the good pages for the request. */
  method DecodeDiffPage(text: Decoder, body: Bytes, q: Request) returns (r: Option<DiffPage>)
    ensures r.Some? ==> Answers(text, q, r.value, body)
    ensures forall p | Answers(text, q, p, body) :: r == Some(p)
  {
    hide Answers, Found;
    if !ValidPageLimits(q.limits) {
      NoPages(text, q);
      return None;
    }
    r := FindPage(text, body, q);
    if r.Some? { FoundIsGood(text, q, body, r.value); }
    forall p | Answers(text, q, p, body)
      ensures r == Some(p)
    {
      FoundIsGood(text, q, body, p);
      if r.Some? { FoundOnce(text, q, body, p, r.value); }
    }
  }

  lemma NoPages(text: Decoder, q: Request)
    requires !ValidPageLimits(q.limits)
    ensures forall p, body :: !Answers(text, q, p, body)
  {
  }

  /** The checks of the decoder, in its order. */
  method FindPage(text: Decoder, body: Bytes, q: Request) returns (r: Option<DiffPage>)
    requires ValidPageLimits(q.limits)
    ensures r.Some? ==> Found(text, q, body, r.value)
    ensures r.None? ==> forall p :: !Found(text, q, body, p)
  {
    hide ReadU32, ReadU16, DecodeDeltas, DecodeCursor, Ordered;
    var l := q.limits;
    if |body| > l.maxBytes || |body| < PAGE_HEADER || body[..4] != PAGE_MAGIC { return None; }
    var fromRoot, toRoot := body[4..36], body[36..68];
    if !Expected(q, fromRoot, toRoot) { return None; }
    var count, nextLength := ReadU32(body, 68), ReadU16(body, 72);
    if count > l.maxRecords || nextLength > MAX_CURSOR_BYTES || PAGE_HEADER + nextLength > |body| { return None; }
    var nextCursor := if nextLength == 0 then None else Some(body[PAGE_HEADER..PAGE_HEADER + nextLength]);
    var previous: Option<Key> := None;
    if q.cursor.Some? {
      var c := DecodeCursor(text, q.cursor.value, l);
      if c.None? || c.value.fromRoot != fromRoot || c.value.toRoot != toRoot { return None; }
      previous := Some(c.value.key);
    }
    var records := ReadRecords(text, body, PAGE_HEADER + nextLength, count, previous, l);
    if records.None? { return None; }
    var page := DiffPage(fromRoot, toRoot, records.value, nextCursor);
    if nextCursor.Some? {
      if count == 0 { return None; }
      var c := DecodeCursor(text, nextCursor.value, l);
      if c.None? || c.value.fromRoot != fromRoot || c.value.toRoot != toRoot { return None; }
      var order := CompareKeys(c.value.key, records.value[count - 1].key);
      if order != 0 { return None; }
    }
    return Some(page);
  }

  // ----------------------------------------------------------------------- chains

  /** Pages each decoded with the cursor of the page before it. */
  ghost predicate Chain(text: Decoder, l: PageLimits, first: Option<Bytes>, pages: seq<DiffPage>) {
    && (forall i | 0 <= i < |pages| :: Continues(text, l, CursorOf(first, pages, i), pages[i]))
    && (forall i | 0 <= i < |pages| - 1 :: pages[i].nextCursor.Some?)
  }

  function CursorOf(first: Option<Bytes>, pages: seq<DiffPage>, i: nat): Option<Bytes>
    requires i <= |pages|
  {
    if i == 0 then first else pages[i - 1].nextCursor
  }

  function AllDeltas(pages: seq<DiffPage>): seq<Delta> {
    if pages == [] then [] else AllDeltas(pages[..|pages| - 1]) + pages[|pages| - 1].deltas
  }

  lemma {:induction false} OrderedJoins(previous: Option<Bytes>, a: seq<Delta>, b: seq<Delta>)
    requires Ordered(previous, a) && Ordered(Before(previous, a, |a|), b)
    ensures Ordered(previous, a + b)
    decreases |b|
  {
    hide Ordered, Above;
    if b == [] {
      assert a + b == a;
    } else {
      var n := |b| - 1;
      var c, d := b[..n], b[n];
      assert b == c + [d] && a + b == (a + c) + [d];
      OrderedOneMore(Before(previous, a, |a|), c, d);
      OrderedJoins(previous, a, c);
      OrderedOneMore(previous, a + c, d);
      assert Before(previous, a + c, |a + c|) == Before(Before(previous, a, |a|), c, |c|);
    }
  }

  /** Where a chain starts: above its first cursor's path, if it has one. */
  ghost function StartOf(text: Decoder, l: PageLimits, first: Option<Bytes>): Option<Bytes> {
    if first.None? then None
    else var c := DecodeCursor(text, first.value, l); if c.None? then None else Some(c.value.key.path)
  }

  /** All pages belong to one pair of roots, all records are in order, every
      continued page made progress, and the last cursor names the last record. */
  ghost predicate Linked(text: Decoder, l: PageLimits, first: Option<Bytes>, pages: seq<DiffPage>) {
    && pages != []
    && (forall i | 0 <= i < |pages| :: pages[i].fromRoot == pages[0].fromRoot && pages[i].toRoot == pages[0].toRoot)
    && (forall i | 0 <= i < |pages| - 1 :: pages[i].deltas != [])
    && Ordered(StartOf(text, l, first), AllDeltas(pages))
    && NamesLast(text, l, pages[|pages| - 1], AllDeltas(pages))
  }

  /** The continuation, if any, is the key of the last record under the same roots. */
  ghost predicate NamesLast(text: Decoder, l: PageLimits, p: DiffPage, ds: seq<Delta>) {
    p.nextCursor.Some? ==>
      p.deltas != [] && ds != [] &&
        DecodeCursor(text, p.nextCursor.value, l) == Some(Cursor(p.fromRoot, p.toRoot, ds[|ds| - 1].key))
  }

  lemma LinkOne(text: Decoder, l: PageLimits, first: Option<Bytes>, p: DiffPage)
    requires Continues(text, l, first, p)
    ensures Linked(text, l, first, [p])
  {
    hide Ordered, DecodeCursor;
    assert [p][..0] == [];
    assert AllDeltas([p]) == AllDeltas([]) + p.deltas == p.deltas;
  }

  lemma LinkMore(text: Decoder, l: PageLimits, first: Option<Bytes>, pages: seq<DiffPage>, p: DiffPage)
    requires Linked(text, l, first, pages) && pages[|pages| - 1].nextCursor.Some?
    requires Continues(text, l, pages[|pages| - 1].nextCursor, p)
    ensures Linked(text, l, first, pages + [p])
  {
    hide Ordered, DecodeCursor;
    var more, ds := pages + [p], AllDeltas(pages);
    assert more[..|pages|] == pages;
    assert AllDeltas(more) == ds + p.deltas;
    OrderedJoins(StartOf(text, l, first), ds, p.deltas);
    if p.nextCursor.Some? {
      assert (ds + p.deltas)[|ds + p.deltas| - 1] == p.deltas[|p.deltas| - 1];
    }
  }

  /** Over every chain of accepted pages the records are one ordered diff between
      one pair of snapshots. */
  lemma {:induction false} ChainIsLinked(text: Decoder, l: PageLimits, first: Option<Bytes>, pages: seq<DiffPage>)
    requires Chain(text, l, first, pages) && pages != []
    ensures Linked(text, l, first, pages)
    decreases |pages|
  {
    hide Linked, Continues;
    var n := |pages| - 1;
    var before, last := pages[..n], pages[n];
    assert Continues(text, l, CursorOf(first, pages, n), last);
    assert pages == before + [last];
    if n == 0 {
      LinkOne(text, l, first, last);
      assert pages == [last];
    } else {
      ChainPrefix(text, l, first, pages);
      ChainIsLinked(text, l, first, before);
      assert pages[n - 1].nextCursor.Some? && before[n - 1] == pages[n - 1];
      LinkMore(text, l, first, before, last);
    }
  }

  lemma ChainPrefix(text: Decoder, l: PageLimits, first: Option<Bytes>, pages: seq<DiffPage>)
    requires Chain(text, l, first, pages) && |pages| > 1
    ensures Chain(text, l, first, pages[..|pages| - 1])
  {
    hide Continues;
    var before := pages[..|pages| - 1];
    forall i | 0 <= i < |before|
      ensures Continues(text, l, CursorOf(first, before, i), before[i])
    {
      assert CursorOf(first, before, i) == CursorOf(first, pages, i) && before[i] == pages[i];
    }
  }

  /** Adjacent order is order everywhere: no byte path occurs twice in a chain. */
  lemma {:induction false} PathsIncrease(previous: Option<Bytes>, ds: seq<Delta>, i: nat, j: nat)
    requires Ordered(previous, ds) && i < j < |ds|
    ensures Lex.Less(ds[i].key.path, ds[j].key.path) && ds[i].key.path != ds[j].key.path
    decreases j
  {
    hide Lex.Less, Ordered;
    NextIncreases(previous, ds, j);
    if i + 1 < j {
      PathsIncrease(previous, ds, i, j - 1);
      Lex.Transitive(ds[i].key.path, ds[j - 1].key.path, ds[j].key.path);
    }
    Lex.Irreflexive(ds[i].key.path);
  }

  lemma NextIncreases(previous: Option<Bytes>, ds: seq<Delta>, j: nat)
    requires Ordered(previous, ds) && 0 < j < |ds|
    ensures Lex.Less(ds[j - 1].key.path, ds[j].key.path)
  {
    hide Lex.Less;
    assert Above(Before(previous, ds, j), ds[j].key.path);
  }

  // ---------------------------------------------------- byte paths and text paths

  const BYTE_ORDER_MARK: Bytes := [0xef, 0xbb, 0xbf]

  /** A decoder that, like `TextDecoder` by default, drops one leading mark. */
  ghost predicate DropsMark(text: Decoder, utf8: Decoder) {
    && (forall b: Bytes :: text(b) == if BYTE_ORDER_MARK <= b then utf8(b[3..]) else utf8(b))
    && (forall a, b | utf8(a).Some? && utf8(a) == utf8(b) :: a == b)
  }

  /** One path is the other behind a mark that the decoder drops. */
  predicate Twins(a: Bytes, b: Bytes) {
    || (a == BYTE_ORDER_MARK + b && !(BYTE_ORDER_MARK <= b))
    || (b == BYTE_ORDER_MARK + a && !(BYTE_ORDER_MARK <= a))
  }

  /** Byte paths are unique in a chain, text paths are not: two byte paths share
      their text exactly when one is the other behind a byte order mark. */
  lemma SameTextIffMarked(text: Decoder, utf8: Decoder, a: Bytes, b: Bytes)
    requires DropsMark(text, utf8) && text(a).Some? && text(b).Some? && a != b
    ensures text(a) == text(b) <==> Twins(a, b)
  {
    var m := BYTE_ORDER_MARK;
    var x, y := if m <= a then a[3..] else a, if m <= b then b[3..] else b;
    assert m <= a ==> a == m + a[3..];
    assert m <= b ==> b == m + b[3..];
    assert text(a) == utf8(x) && text(b) == utf8(y);
    assert text(a) == text(b) <==> x == y;
    if a == m + b { assert a[..3] == m && a[3..] == b; }
    if b == m + a { assert b[..3] == m && b[3..] == a; }
  }

  /** So the records of a page or a chain name distinct text paths exactly when no
      two of their byte paths are twins. */
  lemma TextsAreUniqueIffNoTwins(text: Decoder, utf8: Decoder, l: PageLimits, previous: Option<Bytes>, ds: seq<Delta>)
    requires DropsMark(text, utf8) && AllGood(text, ds, l) && Ordered(previous, ds)
    ensures (forall i, j | 0 <= i < j < |ds| :: text(ds[i].key.path) != text(ds[j].key.path)) <==>
            (forall i, j | 0 <= i < j < |ds| :: !Twins(ds[i].key.path, ds[j].key.path))
  {
    hide Twins, DropsMark, Ordered, SafePath, Lex.Less;
    forall i, j | 0 <= i < j < |ds|
      ensures text(ds[i].key.path) == text(ds[j].key.path) <==> Twins(ds[i].key.path, ds[j].key.path)
    {
      assert GoodDelta(text, ds[i], l) && GoodDelta(text, ds[j], l);
      PathsIncrease(previous, ds, i, j);
      SameTextIffMarked(text, utf8, ds[i].key.path, ds[j].key.path);
    }
  }

  /** Two deletions, of "a" and of the mark before "a". */
  function TwinPage(): DiffPage {
    DiffPage(seq(32, i => 0), seq(32, i => 1),
             [Delta(Key([0x61], 3, []), None), Delta(Key(BYTE_ORDER_MARK + [0x61], 3, []), None)], None)
  }

  function TwinRequest(): Request {
    Request(ToHex(seq(32, i => 0)), None, None, PageLimits(MIN_PAGE_BYTES, 2, MAX_PATH_BYTES))
  }

  lemma HexIsLower(b: Bytes)
    ensures LowerText(ToHex(b)) == ToHex(b)
  {
    forall i | 0 <= i < 2 * |b|
      ensures !('A' <= ToHex(b)[i] <= 'Z')
    {
      DigitIsLower(if i % 2 == 0 then b[i / 2] / 16 else b[i / 2] % 16);
    }
  }

  lemma DigitIsLower(n: int)
    requires 0 <= n < 16
    ensures !('A' <= HexDigit(n) <= 'Z')
  {
  }

  /** A deletion of a short path takes two bytes beside the path. */
  lemma DeletionBytes(d: Delta)
    requires d.key.action == 3 && d.payload.None? && |d.key.path| < 128
    ensures DeltaBytes(d) == [3, |d.key.path|] + d.key.path
  {
    assert Leb(|d.key.path|) == [|d.key.path|];
  }

  lemma TwinTexts(text: Decoder, utf8: Decoder)
    requires DropsMark(text, utf8) && utf8([0x61]) == Some("a")
    ensures text([0x61]) == Some("a") && text(BYTE_ORDER_MARK + [0x61]) == Some("a")
  {
    var marked := BYTE_ORDER_MARK + [0x61];
    assert BYTE_ORDER_MARK <= marked && marked[3..] == [0x61];
    assert !(BYTE_ORDER_MARK <= [0x61]);
  }

  lemma TwinPageSize()
    ensures AllEncodable(TwinPage().deltas) && |PageBytes(TwinPage())| == 83
  {
    hide U32, U16, DeltaBytes;
    var ds := TwinPage().deltas;
    assert ds[..1] == [ds[0]] && ds[..1][..0] == [];
    DeltasSplit(ds);
    DeltasSplit(ds[..1]);
    DeltasSplit([]);
    DeletionBytes(ds[0]);
    DeletionBytes(ds[1]);
  }

  lemma TwinsAreOrdered()
    ensures Ordered(None, TwinPage().deltas)
  {
    var ds := TwinPage().deltas;
    forall i | 0 <= i < |ds|
      ensures Above(Before(None, ds, i), ds[i].key.path)
    {
      if i == 1 { FirstDifference(ds[0].key.path, ds[1].key.path, 0); }
    }
  }

  lemma TwinPageAnswers(text: Decoder, utf8: Decoder)
    requires DropsMark(text, utf8) && utf8([0x61]) == Some("a")
    ensures text([0x61]) == text(BYTE_ORDER_MARK + [0x61])
    ensures AllEncodable(TwinPage().deltas) && Answers(text, TwinRequest(), TwinPage(), PageBytes(TwinPage()))
  {
    hide DropsMark, PageBytes, Ordered, SafePath, ToHex, LowerText;
    TwinTexts(text, utf8);
    TwinPageSize();
    TwinsAreOrdered();
    SingleLetterPath();
    HexIsLower(TwinPage().fromRoot);
    assert TwinPage().toRoot[0] == 1;
  }

  /** The bytes below 128 as text: a decoder of the kind assumed. */
  function Plain(b: Bytes): Option<string> {
    if forall i | 0 <= i < |b| :: b[i] < 128 then Some(seq(|b|, i requires 0 <= i < |b| => (b[i] as int) as char))
    else None
  }

  function PlainUnmarked(b: Bytes): Option<string> {
    if BYTE_ORDER_MARK <= b then Plain(b[3..]) else Plain(b)
  }

  lemma PlainDropsMark()
    ensures DropsMark(PlainUnmarked, Plain) && Plain([0x61]) == Some("a")
  {
    assert Plain([0x61]).value == "a";
    forall a: Bytes, b: Bytes | Plain(a).Some? && Plain(a) == Plain(b)
      ensures a == b
    {
      assert |a| == |b|;
      forall i | 0 <= i < |a|
        ensures a[i] == b[i]
      {
        assert Plain(a).value[i] == Plain(b).value[i];
      }
    }
  }

  /** An accepted page whose two records name one text path. */
  method TwinsInOnePage(text: Decoder, utf8: Decoder) returns (r: Option<DiffPage>)
    requires DropsMark(text, utf8) && utf8([0x61]) == Some("a")
    ensures r == Some(TwinPage())
    ensures text(TwinPage().deltas[0].key.path) == text(TwinPage().deltas[1].key.path)
  {
    hide Answers, PageBytes;
    TwinPageAnswers(text, utf8);
    var body := PageBytes(TwinPage());
    r := DecodeDiffPage(text, body, TwinRequest());
  }

  /** The same with a decoder written out. */
  method TwinsInPlainText() returns (r: Option<DiffPage>)
    ensures r == Some(TwinPage())
    ensures PlainUnmarked(TwinPage().deltas[0].key.path) == PlainUnmarked(TwinPage().deltas[1].key.path) == Some("a")
  {
    hide DropsMark, Plain, PlainUnmarked;
    PlainDropsMark();
    TwinTexts(PlainUnmarked, Plain);
    r := TwinsInOnePage(PlainUnmarked, Plain);
  }
}
