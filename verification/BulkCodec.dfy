/** The bulk pack codec: bytes, little-endian words, hexadecimal hashes, upload
    packs and download pages. */
module BulkCodec {
  import opened Common

  type byte = x: int | 0 <= x < 256

  type Bytes = seq<byte>

  const PACK_MAGIC: Bytes := [0x4f, 0x42, 0x50, 0x31]
  const DOWNLOAD_MAGIC: Bytes := [0x4f, 0x42, 0x44, 0x31]
  const PACK_HEADER_BYTES := 10
  const RECORD_HEADER_BYTES := 42
  const DOWNLOAD_HEADER_BYTES := 12

  // ---------------------------------------------------- little-endian words

  function U32(n: nat): (b: Bytes)
    ensures |b| == 4
  {
    [n % 256, n / 256 % 256, n / 256 / 256 % 256, n / 256 / 256 / 256 % 256]
  }

  function Word(b0: int, b1: int, b2: int, b3: int): int {
    b0 + 256 * (b1 + 256 * (b2 + 256 * b3))
  }

  function ReadU32(b: Bytes, offset: nat): (n: nat)
    requires offset + 4 <= |b|
    ensures n <= U32_MAX
  {
    Word(b[offset], b[offset + 1], b[offset + 2], b[offset + 3])
  }

  /** Every word has one encoding, and every four bytes encode one word. */
  lemma WordRoundTrip(b: Bytes, offset: nat, n: nat)
    requires offset + 4 <= |b| && n <= U32_MAX
    ensures ReadU32(b, offset) == n <==> b[offset..offset + 4] == U32(n)
  {
    hide U32, Word;
    var w := b[offset..offset + 4];
    assert w == [b[offset], b[offset + 1], b[offset + 2], b[offset + 3]];
    WordParts(b[offset], b[offset + 1], b[offset + 2], b[offset + 3]);
    WordIsItsParts(n);
  }

  lemma LowByte(b: byte, m: nat)
    ensures (b as int + 256 * m) % 256 == b && (b as int + 256 * m) / 256 == m
  {
  }

  lemma WordParts(b0: byte, b1: byte, b2: byte, b3: byte)
    ensures Word(b0, b1, b2, b3) >= 0 && U32(Word(b0, b1, b2, b3)) == [b0, b1, b2, b3]
  {
    LowByte(b3, 0);
    LowByte(b2, b3);
    LowByte(b1, b2 as int + 256 * b3 as int);
    LowByte(b0, b1 as int + 256 * (b2 as int + 256 * b3 as int));
  }

  lemma WordIsItsParts(n: nat)
    requires n <= U32_MAX
    ensures var w := U32(n); Word(w[0], w[1], w[2], w[3]) == n
  {
    var m := n / 256;
    var l := m / 256;
    assert n == n % 256 + 256 * m && m == m % 256 + 256 * l && l == l % 256 + 256 * (l / 256);
  }

  // -------------------------------------------------------- hexadecimal text

  function HexDigit(n: int): (c: char)
    requires 0 <= n < 16
    ensures HexValue(c) == Some(n)
  {
    if n < 10 then '0' + n as char else 'a' + (n - 10) as char
  }

  function HexValue(c: char): (v: Option<int>)
    ensures v.Some? ==> 0 <= v.value < 16
  {
    if '0' <= c <= '9' then Some(c as int - '0' as int)
    else if 'a' <= c <= 'f' then Some(c as int - 'a' as int + 10)
    else if 'A' <= c <= 'F' then Some(c as int - 'A' as int + 10)
    else None
  }

  predicate IsHex(s: string) {
    forall i | 0 <= i < |s| :: HexValue(s[i]).Some?
  }

  /** `/^[0-9a-fA-F]{64}$/`. */
  predicate IsHash(s: string) {
    |s| == 64 && IsHex(s)
  }

  function LowerCase(s: string): (r: string)
    requires IsHex(s)
    ensures |r| == |s|
  {
    seq(|s|, i requires 0 <= i < |s| => HexDigit(HexValue(s[i]).value))
  }

  lemma LowerCaseTwice(s: string)
    requires IsHex(s)
    ensures IsHex(LowerCase(s)) && LowerCase(LowerCase(s)) == LowerCase(s)
  {
  }

  function FromHex(s: string): (b: Bytes)
    requires IsHex(s) && |s| % 2 == 0
    ensures |b| == |s| / 2
  {
    seq(|s| / 2, i requires 0 <= i < |s| / 2 => 16 * HexValue(s[2 * i]).value + HexValue(s[2 * i + 1]).value)
  }

  function ToHex(b: Bytes): (s: string)
    ensures |s| == 2 * |b| && IsHex(s)
  {
    seq(2 * |b|, i requires 0 <= i < 2 * |b| => HexDigit(if i % 2 == 0 then b[i / 2] / 16 else b[i / 2] % 16))
  }

  lemma HexRoundTrip(b: Bytes)
    ensures FromHex(ToHex(b)) == b && LowerCase(ToHex(b)) == ToHex(b)
  {
    var s := ToHex(b);
    forall i | 0 <= i < |b|
      ensures FromHex(s)[i] == b[i]
    {
      assert (2 * i) / 2 == i && (2 * i + 1) / 2 == i && (2 * i) % 2 == 0 && (2 * i + 1) % 2 == 1;
    }
  }

  /** Hashes are case-insensitive: equal bytes mean equal lower-case text. */
  lemma HexIsLowerCase(s: string)
    requires IsHex(s) && |s| % 2 == 0
    ensures ToHex(FromHex(s)) == LowerCase(s)
  {
    var b := FromHex(s);
    forall i | 0 <= i < |s|
      ensures ToHex(b)[i] == LowerCase(s)[i]
    {
      var j := i / 2;
      assert i == 2 * j || i == 2 * j + 1;
      assert b[j] / 16 == HexValue(s[2 * j]).value && b[j] % 16 == HexValue(s[2 * j + 1]).value;
    }
  }

  /** The loops of `hexToHash` and `hashToHex`. */
  method HexToHash(s: string) returns (r: Option<Bytes>)
    ensures r.Some? <==> IsHash(s)
    ensures r.Some? ==> r.value == FromHex(s)
  {
    if |s| != 64 { return None; }
    for i := 0 to 64
      invariant forall j | 0 <= j < i :: HexValue(s[j]).Some?
    {
      if HexValue(s[i]).None? { return None; }
    }
    var b: Bytes := [];
    for i := 0 to 32
      invariant b == FromHex(s)[..i]
    {
      b := b + [16 * HexValue(s[2 * i]).value + HexValue(s[2 * i + 1]).value];
    }
    assert FromHex(s)[..32] == FromHex(s);
    return Some(b);
  }

  method HashToHex(b: Bytes) returns (r: Option<string>)
    ensures r.Some? <==> |b| == 32
    ensures r.Some? ==> r.value == ToHex(b) && IsHash(r.value)
  {
    if |b| != 32 { return None; }
    var s := "";
    for i := 0 to |b|
      invariant s == ToHex(b)[..2 * i]
    {
      assert (2 * i) / 2 == i && (2 * i + 1) / 2 == i && (2 * i) % 2 == 0 && (2 * i + 1) % 2 == 1;
      assert ToHex(b)[..2 * i + 2] == ToHex(b)[..2 * i] + [ToHex(b)[2 * i]] + [ToHex(b)[2 * i + 1]];
      s := s + [HexDigit(b[i] / 16)] + [HexDigit(b[i] % 16)];
    }
    assert ToHex(b)[..2 * |b|] == ToHex(b);
    return Some(s);
  }

  // ------------------------------------------------------------------ records

  datatype Limits = Limits(maxObjects: int, maxBytes: int, maxObjectBytes: int)

  predicate ValidLimits(l: Limits) {
    0 < l.maxObjects <= U32_MAX && 0 < l.maxBytes <= U32_MAX && 0 < l.maxObjectBytes <= U32_MAX
  }

  datatype Record = Record(kind: int, hash: string, data: Bytes, flags: Option<int>)

  /** `assertRecordShape`. */
  predicate Shaped(r: Record) {
    0 <= r.kind <= 3 && IsHash(r.hash) && r.flags.GetOr(0) == 0 && |r.data| <= U32_MAX
  }

  predicate AllShaped(rs: seq<Record>) {
    forall i | 0 <= i < |rs| :: Shaped(rs[i])
  }

  function Weight(r: Record): nat {
    RECORD_HEADER_BYTES + |r.data|
  }

  function Payload(rs: seq<Record>): nat {
    if rs == [] then 0 else Payload(rs[..|rs| - 1]) + Weight(rs[|rs| - 1])
  }

  /** What the encoder demands of a pack. */
  predicate Encodable(rs: seq<Record>, l: Limits) {
    && |rs| <= l.maxObjects && AllShaped(rs)
    && PACK_HEADER_BYTES + Payload(rs) <= l.maxBytes
    && forall i | 0 <= i < |rs| :: |rs[i].data| <= l.maxObjectBytes
  }

  function RecordBytes(r: Record): (b: Bytes)
    requires Shaped(r)
    ensures |b| == Weight(r)
  {
    [r.kind, 0] + FromHex(r.hash) + U32(|r.data|) + U32(|r.data|) + r.data
  }

  function Body(rs: seq<Record>): (b: Bytes)
    requires AllShaped(rs)
    ensures |b| == Payload(rs)
  {
    if rs == [] then [] else Body(rs[..|rs| - 1]) + RecordBytes(rs[|rs| - 1])
  }

  function Header(count: nat): (b: Bytes)
    ensures |b| == PACK_HEADER_BYTES
  {
    PACK_MAGIC + [0, 0] + U32(count)
  }

  /** The bytes of an upload pack. */
  function PackBytes(rs: seq<Record>): (b: Bytes)
    requires AllShaped(rs)
    ensures |b| == PACK_HEADER_BYTES + Payload(rs)
  {
    Header(|rs|) + Body(rs)
  }

  /** A record as it comes back from the wire: explicit flags, lower-case hash. */
  function Normal(r: Record): (n: Record)
    requires Shaped(r)
    ensures Shaped(n) && Weight(n) == Weight(r)
  {
    LowerCaseTwice(r.hash);
    Record(r.kind, LowerCase(r.hash), r.data, Some(0))
  }

  function Normals(rs: seq<Record>): (ns: seq<Record>)
    requires AllShaped(rs)
    ensures |ns| == |rs| && AllShaped(ns)
  {
    seq(|rs|, i requires 0 <= i < |rs| => Normal(rs[i]))
  }

  lemma NormalTwice(r: Record)
    requires Shaped(r)
    ensures Normal(Normal(r)) == Normal(r) && RecordBytes(Normal(r)) == RecordBytes(r)
  {
    LowerCaseTwice(r.hash);
    HexIsLowerCase(r.hash);
    HexRoundTrip(FromHex(r.hash));
  }

  // ----------------------------------------------------------------- decoding

  /** The record at `cursor` and where it ends; `None` where the source throws. */
  function DecodeRecord(b: Bytes, cursor: nat, l: Limits): (r: Option<(Record, nat)>)
    ensures r.Some? ==> cursor + RECORD_HEADER_BYTES <= r.value.1 <= |b|
  {
    var headerEnd := cursor + RECORD_HEADER_BYTES;
    if headerEnd > |b| then None
    else if b[cursor] > 3 || b[cursor + 1] != 0 then None
    else
      var plain, stored := ReadU32(b, cursor + 34), ReadU32(b, cursor + 38);
      if plain != stored || plain > l.maxObjectBytes || headerEnd + stored > |b| then None
      else Some((Record(b[cursor], ToHex(b[cursor + 2..cursor + 34]), b[headerEnd..headerEnd + stored], Some(0)),
        headerEnd + stored))
  }

  function DecodeRecords(b: Bytes, cursor: nat, count: nat, l: Limits): (r: Option<(seq<Record>, nat)>)
    decreases count
  {
    if count == 0 then Some(([], cursor))
    else
      var before := DecodeRecords(b, cursor, count - 1, l);
      if before.None? then None
      else
        var next := DecodeRecord(b, before.value.1, l);
        if next.None? then None else Some((before.value.0 + [next.value.0], next.value.1))
  }

  ghost predicate Fine(r: Record, l: Limits) {
    Shaped(r) && Normal(r) == r && |r.data| <= l.maxObjectBytes
  }

  lemma RecordFields(r: Record)
    requires Shaped(r)
    ensures var b := RecordBytes(r);
      && b[0] == r.kind && b[1] == 0 && b[2..34] == FromHex(r.hash)
      && b[34..38] == U32(|r.data|) && b[38..42] == U32(|r.data|) && b[42..] == r.data
  {
  }

  lemma Slices(b: Bytes, cursor: nat, end: nat, i: nat, j: nat)
    requires cursor <= end <= |b| && i <= j <= end - cursor
    ensures b[cursor..end][i..j] == b[cursor + i..cursor + j]
  {
    var whole, part := b[cursor..end][i..j], b[cursor + i..cursor + j];
    forall k | 0 <= k < j - i
      ensures whole[k] == part[k]
    {
      assert whole[k] == b[cursor..end][i + k] == b[cursor + i + k] == part[k];
    }
  }

  /** Bytes that hold two pieces hold each of them. */
  lemma TwoPieces(b: Bytes, offset: nat, x: Bytes, y: Bytes)
    requires offset + |x| + |y| <= |b| && b[offset..offset + |x| + |y|] == x + y
    ensures b[offset..offset + |x|] == x && b[offset + |x|..offset + |x| + |y|] == y
  {
    var mid, end := offset + |x|, offset + |x| + |y|;
    Slices(b, offset, end, 0, |x|);
    Slices(b, offset, end, |x|, |x| + |y|);
    assert (x + y)[0..|x|] == x && (x + y)[|x|..|x| + |y|] == y;
  }

  /** What is decoded at a place is what is encoded there. */
  lemma DecodedBytes(b: Bytes, cursor: nat, l: Limits)
    requires DecodeRecord(b, cursor, l).Some?
    ensures var (r, end) := DecodeRecord(b, cursor, l).value; Fine(r, l) && b[cursor..end] == RecordBytes(r)
  {
    hide ToHex, FromHex, LowerCase, U32, ReadU32;
    var (r, end) := DecodeRecord(b, cursor, l).value;
    var hash := b[cursor + 2..cursor + 34];
    HexRoundTrip(hash);
    WordRoundTrip(b, cursor + 34, |r.data|);
    WordRoundTrip(b, cursor + 38, |r.data|);
    FiveFields(b, cursor, end);
  }

  lemma FiveFields(b: Bytes, c: nat, end: nat)
    requires c + RECORD_HEADER_BYTES <= end <= |b|
    ensures b[c..end] == [b[c], b[c + 1]] + b[c + 2..c + 34] + b[c + 34..c + 38] + b[c + 38..c + 42] + b[c + 42..end]
  {
    assert b[c..c + 2] == [b[c], b[c + 1]];
    assert b[c..c + 34] == b[c..c + 2] + b[c + 2..c + 34];
    assert b[c..c + 38] == b[c..c + 34] + b[c + 34..c + 38];
    assert b[c..c + 42] == b[c..c + 38] + b[c + 38..c + 42];
    assert b[c..end] == b[c..c + 42] + b[c + 42..end];
  }

  /** Encoded bytes decode to the normal form of their record. */
  lemma EncodedRecord(b: Bytes, cursor: nat, r: Record, l: Limits)
    requires Shaped(r) && |r.data| <= l.maxObjectBytes
    requires cursor + Weight(r) <= |b| && b[cursor..cursor + Weight(r)] == RecordBytes(r)
    ensures DecodeRecord(b, cursor, l) == Some((Normal(r), cursor + Weight(r)))
  {
    hide ToHex, FromHex, LowerCase, U32, ReadU32;
    var end := cursor + Weight(r);
    RecordFields(r);
    Slices(b, cursor, end, 2, 34);
    Slices(b, cursor, end, 34, 38);
    Slices(b, cursor, end, 38, 42);
    Slices(b, cursor, end, 42, end - cursor);
    assert b[cursor..end][0] == b[cursor] && b[cursor..end][1] == b[cursor + 1];
    WordRoundTrip(b, cursor + 34, |r.data|);
    WordRoundTrip(b, cursor + 38, |r.data|);
    HexIsLowerCase(r.hash);
  }

  lemma {:induction false} DecodedBody(b: Bytes, cursor: nat, count: nat, l: Limits)
    requires DecodeRecords(b, cursor, count, l).Some? && cursor <= |b|
    ensures var (rs, end) := DecodeRecords(b, cursor, count, l).value;
      && |rs| == count && cursor <= end <= |b| && (forall i | 0 <= i < |rs| :: Fine(rs[i], l))
      && AllShaped(rs) && b[cursor..end] == Body(rs)
  {
    hide DecodeRecord, RecordBytes, Fine;
    if count > 0 {
      DecodedBody(b, cursor, count - 1, l);
      var (before, mid) := DecodeRecords(b, cursor, count - 1, l).value;
      DecodedBytes(b, mid, l);
      var (r, end) := DecodeRecord(b, mid, l).value;
      FineIsShaped(r, l);
      assert (before + [r])[..count - 1] == before;
      assert b[cursor..end] == b[cursor..mid] + b[mid..end];
    }
  }

  lemma FineIsShaped(r: Record, l: Limits)
    requires Fine(r, l)
    ensures Shaped(r)
  {
  }

  lemma {:induction false} EncodedBody(b: Bytes, cursor: nat, rs: seq<Record>, l: Limits)
    requires AllShaped(rs) && (forall i | 0 <= i < |rs| :: |rs[i].data| <= l.maxObjectBytes)
    requires cursor + Payload(rs) <= |b| && b[cursor..cursor + Payload(rs)] == Body(rs)
    ensures DecodeRecords(b, cursor, |rs|, l) == Some((Normals(rs), cursor + Payload(rs)))
  {
    hide DecodeRecord, RecordBytes, Normal, Shaped, Weight;
    if rs != [] {
      var n := |rs| - 1;
      var before, r := rs[..n], rs[n];
      var mid, end := cursor + Payload(before), cursor + Payload(rs);
      TwoPieces(b, cursor, Body(before), RecordBytes(r));
      EncodedBody(b, cursor, before, l);
      EncodedRecord(b, mid, r, l);
      assert Normals(rs) == Normals(before) + [Normal(r)];
    }
  }

  /** `decodeBulkUploadPack`, on values. */
  function DecodePack(b: Bytes, l: Limits): Option<seq<Record>> {
    if !ValidLimits(l) || |b| > l.maxBytes || |b| < PACK_HEADER_BYTES then None
    else if b[..4] != PACK_MAGIC || b[4] != 0 || b[5] != 0 || ReadU32(b, 6) > l.maxObjects then None
    else
      var r := DecodeRecords(b, PACK_HEADER_BYTES, ReadU32(b, 6), l);
      if r.None? || r.value.1 != |b| then None else Some(r.value.0)
  }

  lemma HeaderRoundTrip(b: Bytes, count: nat)
    requires |b| >= PACK_HEADER_BYTES && count <= U32_MAX
    ensures b[..10] == Header(count) <==> (b[..4] == PACK_MAGIC && b[4] == 0 && b[5] == 0 && ReadU32(b, 6) == count)
  {
    hide U32, ReadU32;
    WordRoundTrip(b, 6, count);
    var h := b[..10];
    assert h == h[..4] + [h[4], h[5]] + h[6..10] && h[..4] == b[..4] && h[6..10] == b[6..10];
    var k := Header(count);
    assert k[..4] == PACK_MAGIC && k[4] == 0 && k[5] == 0 && k[6..10] == U32(count);
  }

  /** Decoding an encoded pack returns its records, hashes in lower case. */
  lemma DecodeOfEncode(rs: seq<Record>, l: Limits)
    requires ValidLimits(l) && Encodable(rs, l)
    ensures DecodePack(PackBytes(rs), l) == Some(Normals(rs))
  {
    hide U32, ReadU32, Body, RecordBytes, Normal, DecodeRecords;
    var b := PackBytes(rs);
    assert b[..10] == Header(|rs|) && b[10..] == Body(rs) && b[10..10 + Payload(rs)] == Body(rs);
    HeaderRoundTrip(b, |rs|);
    EncodedBody(b, PACK_HEADER_BYTES, rs, l);
  }

  /** Every accepted body is the encoding of what it decodes to. */
  lemma EncodeOfDecode(b: Bytes, l: Limits)
    requires DecodePack(b, l).Some?
    ensures var rs := DecodePack(b, l).value; Encodable(rs, l) && PackBytes(rs) == b && Normals(rs) == rs
  {
    hide U32, ReadU32, Body, RecordBytes, Normal, DecodeRecords, Shaped;
    var count := ReadU32(b, 6);
    DecodedBody(b, PACK_HEADER_BYTES, count, l);
    HeaderRoundTrip(b, count);
    var rs := DecodePack(b, l).value;
    assert b == b[..10] + b[10..] && b[10..] == b[10..|b|] && |b[10..]| == Payload(rs);
    assert forall i | 0 <= i < |rs| :: Fine(rs[i], l);
  }

  /** Accepted bodies are exactly the encodings of encodable packs, and two packs
      share an encoding only if they differ in the case of hashes. */
  lemma CodecIsBijective(b: Bytes, rs: seq<Record>, l: Limits)
    requires ValidLimits(l) && Encodable(rs, l)
    ensures DecodePack(b, l) == Some(Normals(rs)) <==> b == PackBytes(rs)
  {
    hide DecodePack, PackBytes, Normal;
    DecodeOfEncode(rs, l);
    if DecodePack(b, l) == Some(Normals(rs)) {
      EncodeOfDecode(b, l);
      SameBytes(rs);
    }
  }

  lemma {:induction false} SameBody(rs: seq<Record>)
    requires AllShaped(rs)
    ensures Body(Normals(rs)) == Body(rs)
  {
    hide RecordBytes, Normal;
    if rs != [] {
      var n := |rs| - 1;
      SameBody(rs[..n]);
      NormalTwice(rs[n]);
      assert Normals(rs)[..n] == Normals(rs[..n]);
    }
  }

  lemma SameBytes(rs: seq<Record>)
    requires AllShaped(rs)
    ensures PackBytes(Normals(rs)) == PackBytes(rs)
  {
    hide Body, Normal;
    SameBody(rs);
  }

  // ------------------------------------------------------ the byte buffer loops

  /** `output.set(data, offset)`. */
  method WriteBytes(output: array<byte>, offset: nat, data: Bytes)
    requires offset + |data| <= output.Length
    modifies output
    ensures output[..offset] == old(output[..offset])
    ensures output[..offset + |data|] == old(output[..offset]) + data
  {
    for i := 0 to |data|
      invariant output[..offset] == old(output[..offset])
      invariant output[offset..offset + i] == data[..i]
    {
      output[offset + i] := data[i];
    }
    assert output[..offset + |data|] == output[..offset] + output[offset..offset + |data|];
  }

  /** One record at the cursor: kind, flags, hash, both lengths, data. */
  method WriteRecord(output: array<byte>, cursor: nat, r: Record)
    requires Shaped(r) && cursor + Weight(r) <= output.Length
    modifies output
    ensures output[..cursor + Weight(r)] == old(output[..cursor]) + RecordBytes(r)
  {
    hide FromHex, U32, IsHash;
    HashIsBytes(r.hash);
    ghost var start := output[..cursor];
    WriteBytes(output, cursor, [r.kind, 0]);
    var hash := HexToHash(r.hash);
    WriteBytes(output, cursor + 2, hash.value);
    WriteBytes(output, cursor + 34, U32(|r.data|));
    WriteBytes(output, cursor + 38, U32(|r.data|));
    WriteBytes(output, cursor + RECORD_HEADER_BYTES, r.data);
    Assembled(start, [r.kind, 0], hash.value, U32(|r.data|), r.data);
  }

  lemma HashIsBytes(s: string)
    requires IsHash(s)
    ensures |s| == 64 && IsHex(s) && |FromHex(s)| == 32
  {
  }

  lemma Assembled(start: Bytes, a: Bytes, h: Bytes, w: Bytes, d: Bytes)
    ensures start + a + h + w + w + d == start + (a + h + w + w + d)
  {
  }

  /** `bulkPackEncodedLength`: refused where a sum would leave 32 bits. */
  method PackLength(records: seq<Record>) returns (r: Option<nat>)
    ensures r.Some? <==> AllShaped(records) && PACK_HEADER_BYTES + Payload(records) <= U32_MAX
    ensures r.Some? ==> r.value == PACK_HEADER_BYTES + Payload(records)
  {
    hide Shaped;
    var total := PACK_HEADER_BYTES;
    for i := 0 to |records|
      invariant total == PACK_HEADER_BYTES + Payload(records[..i]) <= U32_MAX
      invariant forall j | 0 <= j < i :: Shaped(records[j])
    {
      assert records[..i + 1][..i] == records[..i];
      PayloadGrows(records, i + 1);
      if !Shaped(records[i]) { return None; }
      if total + RECORD_HEADER_BYTES > U32_MAX { return None; }
      total := total + RECORD_HEADER_BYTES;
      if total + |records[i].data| > U32_MAX { return None; }
      total := total + |records[i].data|;
    }
    assert records[..|records|] == records;
    return Some(total);
  }

  lemma {:induction false} PayloadGrows(records: seq<Record>, i: nat)
    requires i <= |records|
    ensures Payload(records[..i]) <= Payload(records)
  {
    if i == |records| {
      assert records[..i] == records;
    } else {
      PayloadGrows(records[..|records| - 1], i);
      assert records[..|records| - 1][..i] == records[..i];
    }
  }

  /** `encodeBulkUploadPack`, filling one buffer of the exact length. */
  method EncodeUploadPack(records: seq<Record>, limits: Limits) returns (r: Option<array<byte>>)
    ensures r.Some? <==> ValidLimits(limits) && Encodable(records, limits)
    ensures r.Some? ==> fresh(r.value) && AllShaped(records) && r.value[..] == PackBytes(records)
  {
    hide RecordBytes, U32, Shaped, Header, Body, Payload, Weight;
    if !ValidLimits(limits) || |records| > limits.maxObjects { return None; }
    var length := PackLength(records);
    if length.None? || length.value > limits.maxBytes { return None; }
    var output := new byte[length.value];
    WriteHeader(output, |records|);
    var cursor := PACK_HEADER_BYTES;
    NoBody(records);
    for i := 0 to |records|
      invariant cursor == PACK_HEADER_BYTES + Payload(records[..i]) <= output.Length
      invariant output[..cursor] == Header(|records|) + Body(records[..i])
      invariant forall j | 0 <= j < i :: |records[j].data| <= limits.maxObjectBytes
    {
      BodyStep(records, i);
      if |records[i].data| > limits.maxObjectBytes { return None; }
      WriteRecord(output, cursor, records[i]);
      cursor := cursor + Weight(records[i]);
    }
    assert records[..|records|] == records && output[..output.Length] == output[..];
    return Some(output);
  }

  method WriteHeader(output: array<byte>, count: nat)
    requires output.Length >= PACK_HEADER_BYTES
    modifies output
    ensures output[..PACK_HEADER_BYTES] == Header(count)
  {
    hide U32;
    WriteBytes(output, 0, PACK_MAGIC);
    WriteBytes(output, 4, [0, 0]);
    WriteBytes(output, 6, U32(count));
    assert output[..10] == Header(count);
  }

  lemma NoBody(records: seq<Record>)
    requires AllShaped(records)
    ensures Payload(records[..0]) == 0 && Body(records[..0]) == []
  {
  }

  lemma BodyStep(records: seq<Record>, i: nat)
    requires AllShaped(records) && i < |records|
    ensures Payload(records[..i + 1]) == Payload(records[..i]) + Weight(records[i]) <= Payload(records)
    ensures Header(|records|) + Body(records[..i]) + RecordBytes(records[i]) ==
            Header(|records|) + Body(records[..i + 1])
  {
    hide RecordBytes, Header, Body, Payload, Weight, Shaped;
    var part := records[..i + 1];
    assert part[..i] == records[..i] && part[i] == records[i];
    BodyOfLast(part);
    PayloadGrows(records, i + 1);
    Associate(Header(|records|), Body(records[..i]), RecordBytes(records[i]));
  }

  lemma BodyOfLast(records: seq<Record>)
    requires AllShaped(records) && records != []
    ensures var n := |records| - 1;
      && Payload(records) == Payload(records[..n]) + Weight(records[n])
      && Body(records) == Body(records[..n]) + RecordBytes(records[n])
  {
    hide RecordBytes, Weight, Shaped;
  }

  lemma Associate(a: Bytes, b: Bytes, c: Bytes)
    ensures (a + b) + c == a + (b + c)
  {}

  /** `decodeBulkUploadPack`: one pass over the body with a cursor. */
  method DecodeUploadPack(body: Bytes, limits: Limits) returns (r: Option<seq<Record>>)
    ensures r == DecodePack(body, limits)
    ensures r.Some? ==> Encodable(r.value, limits) && PackBytes(r.value) == body
  {
    hide DecodeRecord, RecordBytes, Normal, Shaped, ReadU32, Body;
    if DecodePack(body, limits).Some? { EncodeOfDecode(body, limits); }
    if !ValidLimits(limits) || |body| > limits.maxBytes || |body| < 4 || body[..4] != PACK_MAGIC { return None; }
    if |body| < PACK_HEADER_BYTES || body[4] != 0 || body[5] != 0 { return None; }
    var count := ReadU32(body, 6);
    if count > limits.maxObjects { return None; }
    if |body| < PACK_HEADER_BYTES + count * RECORD_HEADER_BYTES {
      TooShort(body, PACK_HEADER_BYTES, count, limits);
      return None;
    }
    var records: seq<Record> := [];
    var cursor := PACK_HEADER_BYTES;
    for i := 0 to count
      invariant DecodeRecords(body, PACK_HEADER_BYTES, i, limits) == Some((records, cursor))
    {
      var next := DecodeRecord(body, cursor, limits);
      if next.None? {
        StaysNone(body, PACK_HEADER_BYTES, i + 1, count, limits);
        return None;
      }
      records, cursor := records + [next.value.0], next.value.1;
    }
    if cursor != |body| { return None; }
    return Some(records);
  }

  lemma {:induction false} StaysNone(b: Bytes, cursor: nat, i: nat, count: nat, l: Limits)
    requires DecodeRecords(b, cursor, i, l).None? && i <= count
    ensures DecodeRecords(b, cursor, count, l).None?
  {
    if i < count {
      StaysNone(b, cursor, i, count - 1, l);
    }
  }

  lemma {:induction false} TooShort(b: Bytes, cursor: nat, count: nat, l: Limits)
    ensures var r := DecodeRecords(b, cursor, count, l);
            r.Some? ==> cursor + count * RECORD_HEADER_BYTES <= r.value.1 && (count > 0 ==> r.value.1 <= |b|)
  {
    if count > 0 {
      TooShort(b, cursor, count - 1, l);
    }
  }

  // ------------------------------------------------------------ download pages

  /** Bit `k` of a number, lowest first. */
  predicate Bit(n: nat, k: nat) {
    if k == 0 then n % 2 == 1 else Bit(n / 2, k - 1)
  }

  /** The number with exactly these bits, lowest first. */
  function FromBits(bits: seq<bool>): (n: nat)
    ensures n < Pow2(|bits|)
  {
    if bits == [] then 0 else (if bits[0] then 1 else 0) + 2 * FromBits(bits[1..])
  }

  lemma {:induction false} NumberIsItsBits(n: nat, bits: seq<bool>)
    requires n < Pow2(|bits|)
    ensures n == FromBits(bits) <==> forall k: nat | k < |bits| :: Bit(n, k) == bits[k]
  {
    if bits != [] {
      var rest := bits[1..];
      NumberIsItsBits(n / 2, rest);
      assert Bit(n, 0) == (n % 2 == 1);
      if forall k: nat | k < |bits| :: Bit(n, k) == bits[k] {
        forall k: nat | k < |rest|
          ensures Bit(n / 2, k) == rest[k]
        {
          assert Bit(n, k + 1) == bits[k + 1];
        }
      }
      if n == FromBits(bits) {
        forall k: nat | k < |bits|
          ensures Bit(n, k) == bits[k]
        {
          if k > 0 { assert Bit(n / 2, k - 1) == rest[k - 1]; }
        }
      }
    }
  }

  function BitmapBytes(count: nat): nat {
    (count + 7) / 8
  }

  predicate BitmapGet(bitmap: Bytes, i: nat)
    requires i / 8 < |bitmap|
  {
    Bit(bitmap[i / 8], i % 8)
  }

  /** `assertUnusedBitmapBitsClear`: the mask covers the bits from `count % 8` up. */
  predicate UnusedClear(bitmap: Bytes, count: nat) {
    count % 8 == 0 || bitmap == [] || ClearFrom(bitmap[|bitmap| - 1], count % 8)
  }

  predicate ClearFrom(b: byte, used: nat) {
    forall k: nat | used <= k < 8 :: !Bit(b, k)
  }

  /** Byte `j` of the bitmap that marks the indices from `next` to `count`. */
  function CursorByte(count: nat, next: nat, j: nat): (b: byte)
  {
    assert Pow2(8) == 256;
    FromBits(seq(8, k requires 0 <= k < 8 => next <= 8 * j + k < count))
  }

  function CursorBitmap(count: nat, next: nat): (b: Bytes)
    ensures |b| == BitmapBytes(count)
  {
    seq(BitmapBytes(count), j requires 0 <= j => CursorByte(count, next, j))
  }

  /** The bitmap agrees with the cursor and has clear padding. */
  ghost predicate Agrees(bitmap: Bytes, count: nat, next: nat) {
    && |bitmap| == BitmapBytes(count) && UnusedClear(bitmap, count)
    && forall i: nat | i < count :: BitmapGet(bitmap, i) == (i >= next)
  }

  lemma ByteAgrees(bitmap: Bytes, count: nat, next: nat, j: nat)
    requires j < |bitmap| == BitmapBytes(count) && next <= count
    ensures bitmap[j] == CursorByte(count, next, j) <==>
            forall k: nat | k < 8 :: Bit(bitmap[j], k) == (next <= 8 * j + k < count)
  {
    var bits := seq(8, k requires 0 <= k < 8 => next <= 8 * j + k < count);
    assert Pow2(8) == 256;
    NumberIsItsBits(bitmap[j], bits);
  }

  /** One bitmap per cursor: nothing else is accepted. */
  lemma BitmapIsCanonical(bitmap: Bytes, count: nat, next: nat)
    requires next <= count
    ensures Agrees(bitmap, count, next) <==> bitmap == CursorBitmap(count, next)
  {
    hide Bit, CursorByte;
    if Agrees(bitmap, count, next) {
      forall j: nat | j < |bitmap|
        ensures bitmap[j] == CursorByte(count, next, j)
      {
        forall k: nat | k < 8
          ensures Bit(bitmap[j], k) == (next <= 8 * j + k < count)
        {
          var i := 8 * j + k;
          assert i / 8 == j && i % 8 == k;
          if i < count {
            assert BitmapGet(bitmap, i) == (i >= next);
          } else {
            assert j == |bitmap| - 1 && count % 8 <= k && count % 8 != 0;
            assert !Bit(bitmap[|bitmap| - 1], k);
          }
        }
        ByteAgrees(bitmap, count, next, j);
      }
    }
    if bitmap == CursorBitmap(count, next) {
      forall i: nat | i < count
        ensures BitmapGet(bitmap, i) == (i >= next)
      {
        var j, k := i / 8, i % 8;
        assert bitmap[j] == CursorByte(count, next, j);
        ByteAgrees(bitmap, count, next, j);
        assert 8 * j + k == i && Bit(bitmap[j], k) == (next <= 8 * j + k < count);
      }
      if count % 8 != 0 && bitmap != [] {
        var j := |bitmap| - 1;
        assert bitmap[j] == CursorByte(count, next, j);
        ByteAgrees(bitmap, count, next, j);
        forall k: nat | count % 8 <= k < 8
          ensures !Bit(bitmap[j], k)
        {
          assert 8 * j + k >= count;
        }
      }
    }
  }

  datatype Page = Page(requestCount: nat, nextCursor: nat, remaining: seq<bool>, records: seq<Record>)

  /** A page of a download of `count` objects that ends before object `next`. */
  function DownloadBytes(count: nat, next: nat, rs: seq<Record>): Bytes
    requires AllShaped(rs)
  {
    DOWNLOAD_MAGIC + U32(count) + U32(next) + CursorBitmap(count, next) + PackBytes(rs)
  }

  function FromCursor(count: nat, next: nat): seq<bool> {
    seq(count, i requires 0 <= i => i >= next)
  }

  /** What the decoder accepts, said on the encoding. */
  ghost predicate IsPage(body: Bytes, expected: nat, previous: nat, l: Limits, next: nat, rs: seq<Record>) {
    && ValidLimits(l) && |body| <= l.maxBytes && previous <= next <= expected <= U32_MAX
    && Encodable(rs, l) && body == DownloadBytes(expected, next, rs)
  }

  lemma PageParts(body: Bytes, count: nat, next: nat, pack: Bytes)
    requires count <= U32_MAX && next <= U32_MAX
    ensures body == DOWNLOAD_MAGIC + U32(count) + U32(next) + CursorBitmap(count, next) + pack <==>
            var m := DOWNLOAD_HEADER_BYTES + BitmapBytes(count);
            && |body| >= m && body[..4] == DOWNLOAD_MAGIC && ReadU32(body, 4) == count && ReadU32(body, 8) == next
            && body[12..m] == CursorBitmap(count, next) && body[m..] == pack
  {
    hide U32, ReadU32, CursorBitmap;
    var m := DOWNLOAD_HEADER_BYTES + BitmapBytes(count);
    var whole := DOWNLOAD_MAGIC + U32(count) + U32(next) + CursorBitmap(count, next) + pack;
    assert whole[..4] == DOWNLOAD_MAGIC && whole[4..8] == U32(count) && whole[8..12] == U32(next);
    assert whole[12..m] == CursorBitmap(count, next) && whole[m..] == pack;
    if |body| >= m {
      WordRoundTrip(body, 4, count);
      WordRoundTrip(body, 8, next);
      assert body == body[..4] + body[4..8] + body[8..12] + body[12..m] + body[m..];
    }
  }

  /** `decodeBulkDownloadResponse`. */
  method DecodeDownload(body: Bytes, expectedCount: nat, previousCursor: nat, limits: Limits) returns (r: Option<Page>)
    ensures r.Some? ==>
      && IsPage(body, expectedCount, previousCursor, limits, r.value.nextCursor, r.value.records)
      && r.value.requestCount == expectedCount && r.value.remaining == FromCursor(expectedCount, r.value.nextCursor)
      && Normals(r.value.records) == r.value.records
    ensures forall next, rs | IsPage(body, expectedCount, previousCursor, limits, next, rs) ::
      r.Some? && r.value.nextCursor == next && r.value.records == Normals(rs)
  {
    hide U32, ReadU32, CursorBitmap, DecodePack, PackBytes, Normal, Agrees;
    Completeness(body, expectedCount, previousCursor, limits);
    if !ValidLimits(limits) || |body| > limits.maxBytes || |body| < 4 || body[..4] != DOWNLOAD_MAGIC { return None; }
    if |body| < DOWNLOAD_HEADER_BYTES { return None; }
    var requestCount, nextCursor := ReadU32(body, 4), ReadU32(body, 8);
    if requestCount != expectedCount || nextCursor < previousCursor || nextCursor > requestCount { return None; }
    var packOffset := DOWNLOAD_HEADER_BYTES + BitmapBytes(requestCount);
    if packOffset > |body| { return None; }
    var bitmap := body[DOWNLOAD_HEADER_BYTES..packOffset];
    BitmapIsCanonical(bitmap, requestCount, nextCursor);
    var remaining := ReadBitmap(bitmap, requestCount, nextCursor);
    if remaining.None? { return None; }
    var pack := body[packOffset..];
    var records := DecodeUploadPack(pack, limits);
    if records.None? { return None; }
    EncodeOfDecode(pack, limits);
    PageParts(body, requestCount, nextCursor, pack);
    return Some(Page(requestCount, nextCursor, remaining.value, records.value));
  }

  /** What any page of this body would contain: its own header, bitmap and pack. */
  lemma Completeness(body: Bytes, expected: nat, previous: nat, l: Limits)
    ensures forall next, rs | IsPage(body, expected, previous, l, next, rs) ::
      var m := DOWNLOAD_HEADER_BYTES + BitmapBytes(expected);
      && |body| >= m && body[..4] == DOWNLOAD_MAGIC && ReadU32(body, 4) == expected && ReadU32(body, 8) == next
      && body[12..m] == CursorBitmap(expected, next) && DecodePack(body[m..], l) == Some(Normals(rs))
  {
    hide U32, ReadU32, CursorBitmap, DecodePack, PackBytes, Normal, Encodable;
    forall next, rs | IsPage(body, expected, previous, l, next, rs)
      ensures var m := DOWNLOAD_HEADER_BYTES + BitmapBytes(expected);
        && |body| >= m && body[..4] == DOWNLOAD_MAGIC && ReadU32(body, 4) == expected && ReadU32(body, 8) == next
        && body[12..m] == CursorBitmap(expected, next) && AllShaped(rs) && DecodePack(body[m..], l) == Some(Normals(rs))
    {
      IsPageIsShaped(body, expected, previous, l, next, rs);
      PageParts(body, expected, next, PackBytes(rs));
      DecodeOfEncode(rs, l);
    }
  }

  lemma IsPageIsShaped(body: Bytes, expected: nat, previous: nat, l: Limits, next: nat, rs: seq<Record>)
    requires IsPage(body, expected, previous, l, next, rs)
    ensures AllShaped(rs)
  {
  }

  /** The bitmap as booleans, if it agrees with the cursor. */
  method ReadBitmap(bitmap: Bytes, count: nat, next: nat) returns (r: Option<seq<bool>>)
    requires |bitmap| == BitmapBytes(count)
    ensures r.Some? <==> Agrees(bitmap, count, next)
    ensures r.Some? ==> r.value == FromCursor(count, next)
  {
    hide Bit;
    if !UnusedClear(bitmap, count) { return None; }
    for i := 0 to count
      invariant forall j: nat | j < i :: BitmapGet(bitmap, j) == (j >= next)
    {
      if BitmapGet(bitmap, i) != (i >= next) { return None; }
    }
    return Some(FromCursor(count, next));
  }
}
