/** The journal checksum: table-driven CRC-32 (section 8 of RFC 1952). */
module Crc32 {

  const POLYNOMIAL: bv32 := 0xedb8_8320

  function Xor(a: bv32, b: bv32): bv32 {
    a ^ b
  }

  function Wide(b: bv8): bv32 {
    b as bv32
  }

  /** One zero bit through the shift register. */
  function Shift(crc: bv32): bv32 {
    if crc & 1 == 0 then crc >> 1 else (crc >> 1) ^ POLYNOMIAL
  }

  function Shifts(crc: bv32, n: nat): bv32
    decreases n
  {
    if n == 0 then crc else Shifts(Shift(crc), n - 1)
  }

  /** Bit `i` of a byte, as a register value. */
  function Bit(b: bv8, i: nat): bv32
    requires i < 8
  {
    ((b >> i) & 1) as bv32
  }

  /** Reference: the bits of one byte from bit `i` on, least significant first,
      each mixed into the low end of the register. */
  function FeedBits(crc: bv32, b: bv8, i: nat): bv32
    requires i <= 8
    decreases 8 - i
  {
    if i == 8 then crc else FeedBits(Shift(Xor(crc, Bit(b, i))), b, i + 1)
  }

  function BitSerial(crc: bv32, bytes: seq<bv8>): bv32
    decreases bytes
  {
    if bytes == [] then crc else BitSerial(FeedBits(crc, bytes[0], 0), bytes[1..])
  }

  /** `CRC32_TABLE[value]`. */
  function TableEntry(value: bv8): bv32 {
    Shifts(Wide(value), 8)
  }

  /** The table slot for the next byte. */
  function Slot(crc: bv32, b: bv8): bv8 {
    ((crc ^ b as bv32) & 0xff) as bv8
  }

  function High(crc: bv32): bv32 {
    crc >> 8
  }

  /** One iteration of `JournalChecksum.add`. */
  function Update(crc: bv32, b: bv8): bv32 {
    Xor(High(crc), TableEntry(Slot(crc, b)))
  }

  function Run(crc: bv32, bytes: seq<bv8>): bv32
    decreases bytes
  {
    if bytes == [] then crc else Run(Update(crc, bytes[0]), bytes[1..])
  }

  function Checksum(bytes: seq<bv8>): bv32 {
    Xor(Run(0xffff_ffff, bytes), 0xffff_ffff)
  }

  // ---------------------------------------------------------------- bit facts

  lemma XorAlgebra(a: bv32, b: bv32, c: bv32)
    ensures Xor(Xor(a, b), c) == Xor(a, Xor(b, c)) && Xor(a, b) == Xor(b, a)
  {}

  lemma XorCancels(a: bv32, b: bv32)
    ensures Xor(Xor(a, b), b) == a && Xor(a, 0) == a
  {}

  function Half(x: bv32): bv32 {
    x >> 1
  }

  predicate Even(x: bv32) {
    x & 1 == 0
  }

  lemma HalfXor(x: bv32, y: bv32)
    ensures Half(Xor(x, y)) == Xor(Half(x), Half(y))
    ensures Even(Xor(x, y)) <==> (Even(x) <==> Even(y))
  {
    assert (x ^ y) & 1 == (x & 1) ^ (y & 1);
    assert x & 1 == 0 || x & 1 == 1;
    assert y & 1 == 0 || y & 1 == 1;
  }

  lemma ShiftIsXor(x: bv32)
    ensures Shift(x) == if Even(x) then Half(x) else Xor(Half(x), POLYNOMIAL)
  {}

  lemma ShiftLinear(x: bv32, y: bv32)
    ensures Shift(Xor(x, y)) == Xor(Shift(x), Shift(y))
  {
    hide Shift, Xor, Half, Even;
    HalfXor(x, y);
    ShiftIsXor(x);
    ShiftIsXor(y);
    ShiftIsXor(Xor(x, y));
    var a, b, p := Half(x), Half(y), POLYNOMIAL;
    XorAlgebra(a, b, p);
    XorAlgebra(a, p, b);
    XorAlgebra(b, p, a);
    if !Even(x) && !Even(y) {
      XorAlgebra(Xor(a, p), b, p);
      XorAlgebra(a, b, p);
      XorCancels(Xor(a, b), p);
    }
  }

  lemma ShiftInjective(x: bv32, y: bv32)
    requires Shift(x) == Shift(y)
    ensures x == y
  {}

  lemma MaskedShift(crc: bv32)
    ensures (crc >> 1) ^ (POLYNOMIAL & (0 - (crc & 1))) == Shift(crc)
  {
    assert crc & 1 == 0 || crc & 1 == 1;
  }

  /** The part of the register the table lookup does not see. */
  function Unseen(crc: bv32, b: bv8): bv32 {
    (crc ^ b as bv32) & 0xffff_ff00
  }

  lemma SlotParts(crc: bv32, b: bv8)
    ensures Xor(crc, Wide(b)) == Xor(Unseen(crc, b), Wide(Slot(crc, b)))
    ensures Unseen(crc, b) & 0xff == 0
    ensures High(Unseen(crc, b)) == High(crc)
  {}

  lemma ShiftEven(x: bv32)
    requires x & 1 == 0
    ensures Shift(x) == x >> 1
  {}

  lemma EightShifts(x: bv32)
    ensures Shifts(x, 8) == Shift(Shift(Shift(Shift(Shift(Shift(Shift(Shift(x))))))))
  {
    hide Shift;
    var a := Shift(x);
    var b := Shift(a);
    var c := Shift(b);
    var d := Shift(c);
    var e := Shift(d);
    assert Shifts(e, 3) == Shift(Shift(Shift(e)));
    assert Shifts(d, 4) == Shifts(e, 3);
    assert Shifts(c, 5) == Shifts(d, 4);
    assert Shifts(b, 6) == Shifts(c, 5);
    assert Shifts(a, 7) == Shifts(b, 6);
  }

  /** Bits above the low byte only move. */
  lemma HighBitsOnlyMove(x: bv32)
    requires x & 0xff == 0
    ensures Shifts(x, 8) == High(x)
  {
    EightShifts(x);
    EvenMoves(x);
    hide Shifts, Shift;
    ShiftEven(x); ShiftEven(x >> 1); ShiftEven(x >> 2); ShiftEven(x >> 3);
    ShiftEven(x >> 4); ShiftEven(x >> 5); ShiftEven(x >> 6); ShiftEven(x >> 7);
  }

  lemma EvenMoves(x: bv32)
    requires x & 0xff == 0
    ensures x & 1 == 0 && (x >> 1) & 1 == 0 && (x >> 2) & 1 == 0 && (x >> 3) & 1 == 0
    ensures (x >> 4) & 1 == 0 && (x >> 5) & 1 == 0 && (x >> 6) & 1 == 0 && (x >> 7) & 1 == 0
    ensures (x >> 1) >> 1 == x >> 2 && (x >> 2) >> 1 == x >> 3 && (x >> 3) >> 1 == x >> 4 && (x >> 4) >> 1 == x >> 5
    ensures (x >> 5) >> 1 == x >> 6 && (x >> 6) >> 1 == x >> 7 && (x >> 7) >> 1 == x >> 8
  {}

  // ------------------------------------------------ table-driven = bit-serial

  lemma {:induction false} ShiftsLinear(x: bv32, y: bv32, n: nat)
    ensures Shifts(Xor(x, y), n) == Xor(Shifts(x, n), Shifts(y, n))
    decreases n
  {
    hide Shift, Xor;
    if n > 0 {
      ShiftLinear(x, y);
      ShiftsLinear(Shift(x), Shift(y), n - 1);
    }
  }

  /** The bits of a byte from bit `i` on. */
  function Rest(b: bv8, i: nat): bv32
    requires i <= 8
  {
    if i == 8 then 0 else (b >> i) as bv32
  }

  /** Splitting off the lowest remaining bit. */
  lemma RestSplits(b: bv8, i: nat)
    requires i < 8
    ensures Rest(b, i) == Xor(Bit(b, i), Rest(b, i + 1) << 1)
    ensures Shift(Rest(b, i + 1) << 1) == Rest(b, i + 1)
  {
    if i == 7 {
      assert (b >> 7) & 1 == b >> 7;
    } else {
      var c := b >> i;
      assert b >> (i + 1) == c >> 1;
      RestSplitsOnce(c);
    }
  }

  lemma RestSplitsOnce(c: bv8)
    ensures c as bv32 == (c & 1) as bv32 ^ ((c >> 1) as bv32 << 1)
    ensures ((c >> 1) as bv32 << 1) & 1 == 0 && ((c >> 1) as bv32 << 1) >> 1 == (c >> 1) as bv32
  {}

  /** Mixing the remaining bits in at once, or one at a time, is the same. */
  lemma {:induction false} FeedBitsIsShifts(crc: bv32, b: bv8, i: nat)
    requires i <= 8
    ensures FeedBits(crc, b, i) == Shifts(Xor(crc, Rest(b, i)), 8 - i)
    decreases 8 - i
  {
    if i == 8 {
      XorCancels(crc, 0);
    } else {
      FeedBitsStep(crc, b, i);
      FeedBitsIsShifts(Shift(Xor(crc, Bit(b, i))), b, i + 1);
      hide Shift, Xor, Bit, Rest;
    }
  }

  lemma FeedBitsStep(crc: bv32, b: bv8, i: nat)
    requires i < 8
    ensures Shift(Xor(crc, Rest(b, i))) == Xor(Shift(Xor(crc, Bit(b, i))), Rest(b, i + 1))
  {
    hide Shift, Xor, Bit, Rest;
    RestSplits(b, i);
    XorAlgebra(crc, Bit(b, i), Rest(b, i + 1) << 1);
    ShiftLinear(Xor(crc, Bit(b, i)), Rest(b, i + 1) << 1);
  }

  lemma UpdateIsShifts(crc: bv32, b: bv8)
    ensures Update(crc, b) == Shifts(Xor(crc, Wide(b)), 8)
  {
    hide Shifts, Xor, Unseen, Wide, Slot;
    SlotParts(crc, b);
    ShiftsLinear(Unseen(crc, b), Wide(Slot(crc, b)), 8);
    HighBitsOnlyMove(Unseen(crc, b));
  }

  lemma UpdateIsFeedBits(crc: bv32, b: bv8)
    ensures Update(crc, b) == FeedBits(crc, b, 0)
  {
    UpdateIsShifts(crc, b);
    FeedBitsIsShifts(crc, b, 0);
    hide Update, FeedBits, Shifts, Xor;
    assert Rest(b, 0) == Wide(b);
  }

  /** The table-driven checksum computes the bit-serial one. */
  lemma {:induction false} TableDrivenIsBitSerial(crc: bv32, bytes: seq<bv8>)
    ensures Run(crc, bytes) == BitSerial(crc, bytes)
    decreases bytes
  {
    hide Update, FeedBits;
    if bytes != [] {
      UpdateIsFeedBits(crc, bytes[0]);
      TableDrivenIsBitSerial(Update(crc, bytes[0]), bytes[1..]);
    }
  }

  /** The inner loop that fills one table slot. */
  method FillTableSlot(value: bv8) returns (crc: bv32)
    ensures crc == TableEntry(value)
  {
    hide Shift;
    crc := Wide(value);
    for bit := 0 to 8
      invariant Shifts(crc, 8 - bit) == TableEntry(value)
    {
      MaskedShift(crc);
      crc := (crc >> 1) ^ (POLYNOMIAL & (0 - (crc & 1)));
    }
  }

  /** `JournalChecksum.add` on an encoded chunk. */
  method Add(start: bv32, encoded: seq<bv8>) returns (crc: bv32)
    ensures crc == BitSerial(start, encoded)
  {
    hide Update, BitSerial;
    crc := start;
    for i := 0 to |encoded|
      invariant Run(crc, encoded[i..]) == Run(start, encoded)
    {
      assert encoded[i..][1..] == encoded[i + 1..];
      crc := Update(crc, encoded[i]);
    }
    TableDrivenIsBitSerial(start, encoded);
  }

  // -------------------------------------------------------- what it can detect

  lemma {:induction false} ShiftsInjective(x: bv32, y: bv32, n: nat)
    requires Shifts(x, n) == Shifts(y, n)
    ensures x == y
    decreases n
  {
    hide Shift;
    if n > 0 {
      ShiftsInjective(Shift(x), Shift(y), n - 1);
      ShiftInjective(x, y);
    }
  }

  lemma {:induction false} ShiftsCompose(x: bv32, m: nat, n: nat)
    ensures Shifts(x, m + n) == Shifts(Shifts(x, m), n)
    decreases m
  {
    hide Shift;
    if m > 0 { ShiftsCompose(Shift(x), m - 1, n); }
  }

  /** Registers that differ keep differing, whatever byte follows. */
  lemma UpdateInjective(x: bv32, y: bv32, b: bv8)
    requires Update(x, b) == Update(y, b)
    ensures x == y
  {
    hide Update, Shifts, Xor, Wide;
    UpdateIsShifts(x, b);
    UpdateIsShifts(y, b);
    ShiftsInjective(Xor(x, Wide(b)), Xor(y, Wide(b)), 8);
    XorCancels(x, Wide(b));
    XorCancels(y, Wide(b));
  }

  lemma {:induction false} RunInjective(x: bv32, y: bv32, bytes: seq<bv8>)
    requires Run(x, bytes) == Run(y, bytes)
    ensures x == y
    decreases bytes
  {
    hide Update;
    if bytes != [] {
      RunInjective(Update(x, bytes[0]), Update(y, bytes[0]), bytes[1..]);
      UpdateInjective(x, y, bytes[0]);
    }
  }

  /** Up to four bytes, little endian, as the register sees them. */
  function Word(bytes: seq<bv8>): bv32
    requires |bytes| <= 4
  {
    if bytes == [] then 0 else Xor(Wide(bytes[0]), Up(Word(bytes[1..])))
  }

  function Up(w: bv32): bv32 {
    w << 8
  }

  /** No more than `n` low bytes are in use. */
  predicate Fits(w: bv32, n: nat) {
    match n
    case 0 => w == 0
    case 1 => w <= 0xff
    case 2 => w <= 0xffff
    case 3 => w <= 0xff_ffff
    case _ => true
  }

  lemma FitsGrows(b: bv8, w: bv32, n: nat)
    requires n < 4 && Fits(w, n)
    ensures Fits(Xor(Wide(b), Up(w)), n + 1) && Fits(w, 3)
  {}

  lemma {:induction false} WordFits(bytes: seq<bv8>)
    requires |bytes| <= 4
    ensures Fits(Word(bytes), |bytes|)
  {
    if bytes != [] {
      WordFits(bytes[1..]);
      FitsGrows(bytes[0], Word(bytes[1..]), |bytes| - 1);
    }
    hide Xor, Up, Wide, Fits;
  }

  lemma Separates(x: bv8, v: bv32, y: bv8, w: bv32)
    requires Fits(v, 3) && Fits(w, 3) && Xor(Wide(x), Up(v)) == Xor(Wide(y), Up(w))
    ensures x == y && v == w
  {}

  lemma {:induction false} WordInjective(a: seq<bv8>, b: seq<bv8>)
    requires |a| == |b| <= 4 && Word(a) == Word(b)
    ensures a == b
  {
    hide Xor, Up, Wide, Fits;
    if a != [] {
      WordFits(a[1..]);
      WordFits(b[1..]);
      FitsGrows(a[0], Word(a[1..]), |a| - 1);
      FitsGrows(b[0], Word(b[1..]), |b| - 1);
      Separates(a[0], Word(a[1..]), b[0], Word(b[1..]));
      WordInjective(a[1..], b[1..]);
      assert a == [a[0]] + a[1..] && b == [b[0]] + b[1..];
    }
  }

  lemma UpThenHigh(w: bv32)
    requires Fits(w, 3)
    ensures Up(w) & 0xff == 0 && High(Up(w)) == w
  {}

  /** Feeding up to four bytes is one long shift of register and word. */
  lemma {:induction false} RunIsShifts(crc: bv32, bytes: seq<bv8>)
    requires |bytes| <= 4
    ensures Run(crc, bytes) == Shifts(Xor(crc, Word(bytes)), 8 * |bytes|)
    decreases bytes
  {
    if bytes == [] {
      XorCancels(crc, 0);
    } else {
      var w := Word(bytes[1..]);
      RunIsShifts(Update(crc, bytes[0]), bytes[1..]);
      FirstByte(crc, bytes[0], bytes[1..]);
      ShiftsCompose(Xor(crc, Word(bytes)), 8, 8 * |bytes[1..]|);
      hide Xor, Up, Wide, Update, Shifts;
    }
  }

  lemma FirstByte(crc: bv32, b: bv8, rest: seq<bv8>)
    requires |rest| < 4
    ensures Xor(Update(crc, b), Word(rest)) == Shifts(Xor(crc, Xor(Wide(b), Up(Word(rest)))), 8)
  {
    hide Xor, Up, Wide, Fits, High, Update, Shifts;
    var w := Word(rest);
    WordFits(rest);
    FitsGrows(b, w, |rest|);
    UpThenHigh(w);
    UpdateIsShifts(crc, b);
    XorAlgebra(crc, Wide(b), Up(w));
    ShiftsLinear(Xor(crc, Wide(b)), Up(w), 8);
    HighBitsOnlyMove(Up(w));
  }

  lemma {:induction false} RunSplit(crc: bv32, a: seq<bv8>, b: seq<bv8>)
    ensures Run(crc, a + b) == Run(Run(crc, a), b)
    decreases a
  {
    hide Update;
    if a == [] {
      assert a + b == b;
    } else {
      assert (a + b)[1..] == a[1..] + b;
      RunSplit(Update(crc, a[0]), a[1..], b);
    }
  }

  lemma WindowInjective(start: bv32, a: seq<bv8>, b: seq<bv8>)
    requires |a| == |b| <= 4 && Run(start, a) == Run(start, b)
    ensures a == b
  {
    hide Run, Shifts, Word, Xor;
    RunIsShifts(start, a);
    RunIsShifts(start, b);
    ShiftsInjective(Xor(start, Word(a)), Xor(start, Word(b)), 8 * |a|);
    XorAlgebra(start, Word(a), start);
    XorAlgebra(start, Word(b), start);
    XorCancels(Word(a), start);
    XorCancels(Word(b), start);
    WordInjective(a, b);
  }

  /** Every corruption confined to four adjacent bytes changes the checksum. */
  lemma DetectsBurst(before: seq<bv8>, a: seq<bv8>, b: seq<bv8>, after: seq<bv8>)
    requires |a| == |b| <= 4 && a != b
    ensures Checksum(before + a + after) != Checksum(before + b + after)
  {
    hide Run, Xor;
    var crc: bv32 := 0xffff_ffff;
    var start := Run(crc, before);
    RunSplit(crc, before + a, after);
    RunSplit(crc, before, a);
    RunSplit(crc, before + b, after);
    RunSplit(crc, before, b);
    if Checksum(before + a + after) == Checksum(before + b + after) {
      XorCancels(Run(crc, before + a + after), crc);
      XorCancels(Run(crc, before + b + after), crc);
      RunInjective(Run(start, a), Run(start, b), after);
      WindowInjective(start, a, b);
    }
  }
}
