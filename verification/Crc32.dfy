/**
 * The log's CRC-32: the table-driven loop, the bit-serial definition it must
 * agree with, and its guarantee that an error within four bytes is always detected.
 *
 * Register algebra is done through the named operations `Xor`, `Half` and
 * `Shift1`, so that proofs can hide their bit-vector bodies.
 */
module Crc {
  import opened Bytes

  function Xor(a: bv32, b: bv32): bv32 { a ^ b }

  function Half(c: bv32): bv32 { c >> 1 }

  /** The reflected polynomial when the low bit is set, nothing otherwise. */
  function Feedback(c: bv32): bv32 { 0xEDB88320 & (0 - (c & 1)) }

  /** One shift of the reflected register. */
  function Shift1(c: bv32): bv32 { Xor(Half(c), Feedback(c)) }

  function Shifts(c: bv32, n: nat): bv32
    decreases n
  {
    if n == 0 then c else Shifts(Shift1(c), n - 1)
  }

  function Nibble(n: int): bv4
    requires 0 <= n < 16
  {
    n as bv4
  }

  function Join(high: bv4, low: bv4): bv32 { (high as bv32 << 4) | (low as bv32) }

  /** A byte as it enters the register, by its two halves; `WideIsByte` says that it is the same number. */
  function Wide(b: byte): bv32 { Join(Nibble((b / 16) as int), Nibble((b % 16) as int)) }

  lemma NibbleValue(n: int)
    requires 0 <= n < 16
    ensures Nibble(n) as int == n
  {
  }

  lemma JoinValue(high: bv4, low: bv4)
    ensures Join(high, low) as int == 16 * (high as int) + low as int
  {
  }

  lemma WideIsByte(b: byte)
    ensures Wide(b) as int == b as int
  {
    hide Nibble, Join;
    var high, low := (b / 16) as int, (b % 16) as int;
    NibbleValue(high);
    NibbleValue(low);
    JoinValue(Nibble(high), Nibble(low));
  }

  /** The register after one more byte. */
  function Absorb(c: bv32, b: byte): bv32 { Shifts(Xor(c, Wide(b)), 8) }

  function Register(c: bv32, bytes: seq<byte>): bv32
    decreases bytes
  {
    if bytes == [] then c else Register(Absorb(c, bytes[0]), bytes[1..])
  }

  /** The final complement, as the number stored in a frame. */
  function Output(c: bv32): nat { Number(Not(c)) }

  function Not(c: bv32): bv32 { !c }

  function Number(c: bv32): nat { c as int }

  function Crc32(bytes: seq<byte>): nat { Counted(|bytes|, bytes) }

  /**
   * The checksum is read off the register after the last byte. It is reached by counting the
   * bytes down, so that reasoning about files does not unfold the register; `CrcIs` gives it.
   */
  function Counted(left: nat, bytes: seq<byte>): nat
    decreases left
  {
    if left == 0 then Output(Register(0xFFFFFFFF, bytes)) else Counted(left - 1, bytes)
  }

  lemma CrcIs(bytes: seq<byte>)
    ensures Crc32(bytes) == Output(Register(0xFFFFFFFF, bytes))
  {
    hide Register, Output;
    CountedIs(|bytes|, bytes);
  }

  lemma {:induction false} CountedIs(left: nat, bytes: seq<byte>)
    ensures Counted(left, bytes) == Output(Register(0xFFFFFFFF, bytes))
    decreases left
  {
    hide Register, Output;
    if left > 0 { CountedIs(left - 1, bytes); }
  }

  // ------------------------------------------------------------ register algebra

  lemma XorCommutes(a: bv32, b: bv32)
    ensures Xor(a, b) == Xor(b, a)
  {
  }

  lemma XorAssociates(a: bv32, b: bv32, c: bv32)
    ensures Xor(Xor(a, b), c) == Xor(a, Xor(b, c))
  {
  }

  lemma XorZero(a: bv32)
    ensures Xor(a, 0) == a
  {
  }

  lemma XorSelf(a: bv32)
    ensures Xor(a, a) == 0
  {
  }

  lemma XorPairs(a: bv32, b: bv32, c: bv32, d: bv32)
    ensures Xor(Xor(a, b), Xor(c, d)) == Xor(Xor(a, c), Xor(b, d))
  {
    hide Xor;
    XorAssociates(a, b, Xor(c, d));
    XorAssociates(b, c, d);
    XorCommutes(b, c);
    XorAssociates(c, b, d);
    XorAssociates(a, c, Xor(b, d));
  }

  lemma XorCancels(a: bv32, b: bv32, c: bv32)
    requires Xor(a, b) == Xor(a, c)
    ensures b == c
  {
    hide Xor;
    XorAssociates(a, a, b);
    XorAssociates(a, a, c);
    XorSelf(a);
    XorCommutes(0, b);
    XorCommutes(0, c);
    XorZero(b);
    XorZero(c);
  }

  lemma HalfLinear(x: bv32, y: bv32)
    ensures Half(Xor(x, y)) == Xor(Half(x), Half(y))
  {
  }

  lemma FeedbackLinear(x: bv32, y: bv32)
    ensures Feedback(Xor(x, y)) == Xor(Feedback(x), Feedback(y))
  {
  }

  lemma Shift1Linear(x: bv32, y: bv32)
    ensures Shift1(Xor(x, y)) == Xor(Shift1(x), Shift1(y))
  {
    hide Xor, Half, Feedback;
    HalfLinear(x, y);
    FeedbackLinear(x, y);
    XorPairs(Half(x), Half(y), Feedback(x), Feedback(y));
  }

  lemma {:induction false} ShiftsLinear(x: bv32, y: bv32, n: nat)
    ensures Shifts(Xor(x, y), n) == Xor(Shifts(x, n), Shifts(y, n))
    decreases n
  {
    hide Xor, Shift1;
    if n > 0 {
      Shift1Linear(x, y);
      ShiftsLinear(Shift1(x), Shift1(y), n - 1);
    }
  }

  lemma {:induction false} ShiftsLast(c: bv32, n: nat)
    ensures Shift1(Shifts(c, n)) == Shifts(c, n + 1)
    decreases n
  {
    hide Shift1;
    if n > 0 {
      ShiftsLast(Shift1(c), n - 1);
    }
  }

  lemma Shift1Injective(x: bv32, y: bv32)
    requires Shift1(x) == Shift1(y)
    ensures x == y
  {
  }

  lemma {:induction false} ShiftsInjective(x: bv32, y: bv32, n: nat)
    requires Shifts(x, n) == Shifts(y, n)
    ensures x == y
    decreases n
  {
    hide Shift1;
    if n > 0 {
      ShiftsInjective(Shift1(x), Shift1(y), n - 1);
      Shift1Injective(x, y);
    }
  }

  lemma {:induction false} RegisterAppend(c: bv32, a: seq<byte>, b: seq<byte>)
    ensures Register(c, a + b) == Register(Register(c, a), b)
    decreases a
  {
    hide Absorb;
    if a == [] {
      assert a + b == b;
    } else {
      assert (a + b)[1..] == a[1..] + b;
      RegisterAppend(Absorb(c, a[0]), a[1..], b);
    }
  }

  // ------------------------------------------------------------ bit-serial reference

  /** Feeds one message bit to the register. */
  function FeedBit(c: bv32, bit: bool): bv32 {
    if (c & 1 == 1) != bit then (c >> 1) ^ 0xEDB88320 else c >> 1
  }

  /** Feeds the `k` low bits of the number `n`, least significant first. */
  function FeedBits(c: bv32, n: nat, k: nat): bv32
    decreases k
  {
    if k == 0 then c else FeedBits(FeedBit(c, n % 2 == 1), n / 2, k - 1)
  }

  function FeedBytes(c: bv32, bytes: seq<byte>): bv32
    decreases bytes
  {
    if bytes == [] then c else FeedBytes(FeedBits(c, bytes[0] as int, 8), bytes[1..])
  }

  /**
   * The checksum of section 8 of RFC 1952, one message bit at a time: the register starts
   * with all bits set, and the result is its ones' complement. It shares no definition with
   * `Crc32`.
   */
  function BitSerialCrc(bytes: seq<byte>): int { 0xFFFFFFFF - (FeedBytes(0xFFFFFFFF, bytes) as int) }

  function LowBit(x: bv32): bool { x & 1 == 1 }

  function Halves(x: bv32, n: nat): bv32
    decreases n
  {
    if n == 0 then x else Halves(Half(x), n - 1)
  }

  lemma FeedbackOfXor(c: bv32, x: bv32)
    ensures Feedback(Xor(c, x)) == if LowBit(c) != LowBit(x) then 0xEDB88320 else 0
  {
  }

  lemma FeedBitIs(c: bv32, bit: bool)
    ensures FeedBit(c, bit) == Xor(Half(c), if LowBit(c) != bit then 0xEDB88320 else 0)
  {
    hide Xor, Half;
    XorIs(Half(c), 0xEDB88320);
    HalfIs(c);
    XorZero(Half(c));
  }

  lemma XorIs(a: bv32, b: bv32)
    ensures Xor(a, b) == a ^ b
  {
  }

  lemma HalfIs(a: bv32)
    ensures Half(a) == a >> 1
  {
  }

  lemma FeedIsShift(c: bv32, x: bv32)
    ensures Xor(FeedBit(c, LowBit(x)), Half(x)) == Shift1(Xor(c, x))
  {
    hide Xor, Half, Feedback, LowBit, FeedBit;
    var f := Feedback(Xor(c, x));
    FeedBitIs(c, LowBit(x));
    FeedbackOfXor(c, x);
    XorAssociates(Half(c), f, Half(x));
    XorCommutes(f, Half(x));
    XorAssociates(Half(c), Half(x), f);
    HalfLinear(c, x);
  }

  /** A byte from its upper seven bits and its lowest. */
  function JoinBit(high: bv7, low: bv1): bv32 { (high as bv32 << 1) | (low as bv32) }

  lemma JoinBitValue(high: bv7, low: bv1)
    ensures JoinBit(high, low) as int == 2 * (high as int) + low as int
  {
  }

  lemma SevenBits(high: bv7)
    ensures (high as bv32) as int == high as int
  {
  }

  lemma SplitBit(x: bv32) returns (high: bv7, low: bv1)
    requires x & 0xFF == x
    ensures x == JoinBit(high, low) && Half(x) == high as bv32 && LowBit(x) == (low == 1) && Half(x) & 0xFF == Half(x)
  {
    high, low := Half(x) as bv7, (x & 1) as bv1;
  }

  /** The lowest bit of a byte is its parity, and the other bits are its half. */
  lemma BitsOfNumber(x: bv32)
    requires x & 0xFF == x
    ensures LowBit(x) == (Number(x) % 2 == 1) && Number(Half(x)) == Number(x) / 2 && Half(x) & 0xFF == Half(x)
  {
    hide JoinBit, Half, LowBit;
    var high, low := SplitBit(x);
    JoinBitValue(high, low);
    SevenBits(high);
    BitValue(low);
  }

  lemma BitValue(low: bv1)
    ensures low as int == if low == 1 then 1 else 0
  {
  }

  /** Shifting `c ^ x` feeds the low bits of `x` to `c`, the unread bits riding along. */
  lemma {:induction false} FeedBitsIsShifts(c: bv32, x: bv32, k: nat)
    requires x & 0xFF == x
    ensures Xor(FeedBits(c, Number(x), k), Halves(x, k)) == Shifts(Xor(c, x), k)
    decreases k
  {
    hide Xor, Half, FeedBit, LowBit, Shift1, Number;
    if k > 0 {
      BitsOfNumber(x);
      FeedIsShift(c, x);
      FeedBitsIsShifts(FeedBit(c, LowBit(x)), Half(x), k - 1);
    }
  }

  lemma ByteIsLow(b: byte)
    ensures (Wide(b)) & 0xFF == Wide(b)
  {
    hide Nibble;
  }

  lemma HalvesOfByte(x: bv32)
    requires x & 0xFF == x
    ensures Halves(x, 8) == 0
  {
    hide Halves;
    HalvesIsShift(x);
  }

  lemma {:induction false} FeedBytesIsRegister(c: bv32, bytes: seq<byte>)
    ensures FeedBytes(c, bytes) == Register(c, bytes)
    decreases bytes
  {
    hide Xor, Halves, FeedBits, Shifts, Wide;
    if bytes != [] {
      var x := Wide(bytes[0]);
      var fed := FeedBits(c, bytes[0] as int, 8);
      WideIsByte(bytes[0]);
      ByteIsLow(bytes[0]);
      FeedBitsIsShifts(c, x, 8);
      HalvesOfByte(x);
      XorZero(fed);
      FeedBytesIsRegister(fed, bytes[1..]);
    }
  }

  /** The lowest byte of a word and the rest of it, as numbers. */
  lemma BytesOfNumber(x: bv32)
    ensures Number(Low(x)) == Number(x) % 256 && Number(DropByte(x)) == Number(x) / 256
  {
    hide Word4, Number, Low, DropByte;
    var a, b, c, d := FourParts(x);
    Word4Value(a, b, c, d);
    Word4Value(0, a, b, c);
    Word4Value(0, 0, 0, d);
    Word4Shifted(a, b, c, d);
    ByteValue(d);
  }

  lemma Word4Shifted(a: bv8, b: bv8, c: bv8, d: bv8)
    ensures DropByte(Word4(a, b, c, d)) == Word4(0, a, b, c) && Low(Word4(a, b, c, d)) == Word4(0, 0, 0, d)
  {
  }

  lemma ByteValue(low: bv8)
    ensures 0 <= low as int < 256
  {
  }

  lemma ByteComplement(b: bv8)
    ensures (!b) as int == 255 - b as int
  {
  }

  /** Complementing all bits takes a number from the largest one. */
  lemma {:induction false} NotIsComplement(x: bv32)
    ensures Number(Not(x)) == 0xFFFFFFFF - Number(x)
  {
    hide Word4, Number, Not;
    var a, b, c, d := FourParts(x);
    Word4Value(a, b, c, d);
    Word4Value(!a, !b, !c, !d);
    ByteComplement(a);
    ByteComplement(b);
    ByteComplement(c);
    ByteComplement(d);
    Word4Not(a, b, c, d);
  }

  /** A word from its four bytes, highest first. */
  function Word4(a: bv8, b: bv8, c: bv8, d: bv8): bv32 {
    (a as bv32 << 24) | (b as bv32 << 16) | (c as bv32 << 8) | (d as bv32)
  }

  lemma Word4Value(a: bv8, b: bv8, c: bv8, d: bv8)
    ensures Number(Word4(a, b, c, d)) == 0x1000000 * (a as int) + 0x10000 * (b as int) + 0x100 * (c as int) + d as int
  {
  }

  lemma Word4Not(a: bv8, b: bv8, c: bv8, d: bv8)
    ensures Not(Word4(a, b, c, d)) == Word4(!a, !b, !c, !d)
  {
  }

  lemma FourParts(x: bv32) returns (a: bv8, b: bv8, c: bv8, d: bv8)
    ensures x == Word4(a, b, c, d)
  {
    a, b, c, d := (x >> 24) as bv8, ((x >> 16) & 0xFF) as bv8, ((x >> 8) & 0xFF) as bv8, (x & 0xFF) as bv8;
  }

  lemma Crc32IsBitSerial(bytes: seq<byte>)
    ensures Crc32(bytes) == BitSerialCrc(bytes)
  {
    hide Crc32, Register, FeedBytes, Not;
    CrcIs(bytes);
    FeedBytesIsRegister(0xFFFFFFFF, bytes);
    NotIsComplement(Register(0xFFFFFFFF, bytes));
  }

  // ------------------------------------------------------------ table form

  function High(x: bv32): bv32 { x & 0xFFFFFF00 }

  function Low(x: bv32): bv32 { x & 0xFF }

  function DropByte(x: bv32): bv32 { x >> 8 }

  lemma ShiftEven(x: bv32)
    requires x & 1 == 0
    ensures Shift1(x) == Half(x)
  {
  }

  predicate LowZeros(x: bv32, n: nat)
    decreases n
  {
    n == 0 || (x & 1 == 0 && LowZeros(Half(x), n - 1))
  }

  lemma {:induction false} ShiftsZeros(x: bv32, n: nat)
    requires LowZeros(x, n)
    ensures Shifts(x, n) == Halves(x, n)
    decreases n
  {
    hide Half, Shift1;
    if n > 0 {
      ShiftEven(x);
      ShiftsZeros(Half(x), n - 1);
    }
  }

  lemma HighBytesZeros(x: bv32)
    ensures LowZeros(High(x), 8)
  {
    var y := High(x) >> 4;
    assert LowZeros(y, 4);
  }

  lemma FourHalves(x: bv32)
    ensures Halves(x, 4) == x >> 4
  {
    assert Halves(x, 4) == x >> 1 >> 1 >> 1 >> 1;
  }

  lemma EightHalves(x: bv32)
    ensures Halves(x, 8) == Halves(Halves(x, 4), 4)
  {
    hide Half;
    var y := Half(Half(Half(Half(x))));
    assert Halves(x, 4) == y;
    assert Halves(x, 8) == Halves(y, 4);
  }

  lemma ShiftFourTwice(x: bv32)
    ensures x >> 4 >> 4 == x >> 8
  {
  }

  lemma HalvesIsShift(x: bv32)
    ensures Halves(x, 8) == DropByte(x)
  {
    hide Halves;
    EightHalves(x);
    FourHalves(x);
    FourHalves(x >> 4);
    ShiftFourTwice(x);
  }

  lemma DropLowByte(x: bv32)
    ensures DropByte(High(x)) == DropByte(x)
  {
  }

  lemma SplitBytes(x: bv32)
    ensures x == Xor(High(x), Low(x))
  {
  }

  /** Eight shifts split into the untouched high bytes and a function of the low byte. */
  lemma ShiftsSplit(x: bv32)
    ensures Shifts(x, 8) == Xor(DropByte(x), Shifts(Low(x), 8))
  {
    hide Xor, Shifts, Halves, LowZeros, High, Low, DropByte;
    SplitBytes(x);
    ShiftsLinear(High(x), Low(x), 8);
    HighBytesZeros(x);
    HalvesIsShift(High(x));
    DropLowByte(x);
    ShiftsZeros(High(x), 8);
  }

  lemma HighBytesUnchanged(c: bv32, x: bv32)
    requires x & 0xFF == x
    ensures DropByte(Xor(c, x)) == DropByte(c)
  {
  }

  /** What one table lookup computes. */
  lemma AbsorbIsLookup(c: bv32, b: byte)
    ensures Absorb(c, b) == Xor(DropByte(c), Shifts(Low(Xor(c, Wide(b))), 8))
  {
    hide Xor, Shifts, Wide, Low, DropByte;
    ByteIsLow(b);
    ShiftsSplit(Xor(c, Wide(b)));
    HighBytesUnchanged(c, Wide(b));
  }

  lemma LowByteRange(x: bv32)
    ensures Number(Low(x)) < 256
  {
  }

  lemma Word(x: bv32)
    ensures Number(x) < U32_LIMIT && Number(x) as bv32 == x
  {
  }

  /** Table entry i: the number i shifted eight times. */
  function Entry(i: nat): bv32
    requires i < 256
  {
    Shifts(i as bv32, 8)
  }

  lemma EntryOf(i: nat, word: bv32)
    requires i < 256 && word == i as bv32
    ensures Shifts(word, 8) == Entry(i)
  {
  }

  /** The finished lookup table. */
  ghost predicate IsTable(table: seq<bv32>) {
    |table| == 256 && forall i :: 0 <= i < 256 ==> table[i] == Entry(i)
  }

  method MakeTable() returns (table: array<bv32>)
    ensures fresh(table) && IsTable(table[..])
  {
    hide Shifts, Xor, Entry;
    table := new bv32[256];
    for i := 0 to 256
      invariant forall j :: 0 <= j < i ==> table[j] == Entry(j)
    {
      var word := i as bv32;
      var entry := word;
      ShiftsNone(word);
      for bit := 0 to 8
        invariant entry == Shifts(word, bit)
        invariant forall j :: 0 <= j < i ==> table[j] == Entry(j)
      {
        ShiftsLast(word, bit);
        var mask := 0 - (entry & 1);
        assert Shift1(entry) == Xor(entry >> 1, 0xEDB88320 & mask);
        entry := Xor(entry >> 1, 0xEDB88320 & mask);
      }
      EntryOf(i, word);
      table[i] := entry;
    }
  }

  lemma ShiftsNone(c: bv32)
    ensures Shifts(c, 0) == c
  {
  }

  lemma RegisterNone(c: bv32)
    ensures Register(c, []) == c
  {
  }

  lemma RegisterOne(c: bv32, b: byte)
    ensures Register(c, [b]) == Absorb(c, b)
  {
    hide Absorb;
  }

  /** The checksum loop the log runs: one table lookup per byte. */
  method TableCrc(table: seq<bv32>, bytes: seq<byte>) returns (crc: nat)
    requires IsTable(table)
    ensures crc == Crc32(bytes) == BitSerialCrc(bytes)
  {
    hide Crc32, BitSerialCrc, Shifts, Xor, Wide, Low, DropByte, Number, Absorb, Register, Output, Entry;
    var c: bv32 := 0xFFFFFFFF;
    RegisterNone(c);
    for i := 0 to |bytes|
      invariant c == Register(0xFFFFFFFF, bytes[..i])
    {
      var low := Low(Xor(c, Wide(bytes[i])));
      LowByteRange(Xor(c, Wide(bytes[i])));
      Word(low);
      EntryOf(Number(low), low);
      AbsorbIsLookup(c, bytes[i]);
      RegisterAppend(0xFFFFFFFF, bytes[..i], [bytes[i]]);
      RegisterOne(c, bytes[i]);
      assert bytes[..i + 1] == bytes[..i] + [bytes[i]];
      c := Xor(DropByte(c), table[Number(low)]);
    }
    assert bytes[..|bytes|] == bytes;
    CrcIs(bytes);
    Crc32IsBitSerial(bytes);
    return Output(c);
  }

  // ------------------------------------------------------------ error detection

  lemma WideInjective(a: byte, b: byte)
    requires Wide(a) == Wide(b)
    ensures a == b
  {
    hide Wide;
    WideIsByte(a);
    WideIsByte(b);
  }

  /** On one byte string, different registers stay different. */
  lemma {:induction false} RegisterInjectiveInState(c: bv32, d: bv32, bytes: seq<byte>)
    requires Register(c, bytes) == Register(d, bytes)
    ensures c == d
    decreases bytes
  {
    hide Xor, Shifts, Wide;
    if bytes != [] {
      var x := Wide(bytes[0]);
      RegisterInjectiveInState(Absorb(c, bytes[0]), Absorb(d, bytes[0]), bytes[1..]);
      ShiftsInjective(Xor(c, x), Xor(d, x), 8);
      XorCommutes(c, x);
      XorCommutes(d, x);
      XorCancels(x, c, d);
    }
  }

  lemma NotInjective(x: bv32, y: bv32)
    requires Not(x) == Not(y)
    ensures x == y
  {
  }

  lemma NumberInjective(x: bv32, y: bv32)
    requires Number(x) == Number(y)
    ensures x == y
  {
    hide Number;
    Word(x);
    Word(y);
  }

  lemma Crc32ReadsRegister(a: seq<byte>, b: seq<byte>)
    requires Crc32(a) == Crc32(b)
    ensures Register(0xFFFFFFFF, a) == Register(0xFFFFFFFF, b)
  {
    hide Crc32, Register, Not, Number;
    var x, y := Register(0xFFFFFFFF, a), Register(0xFFFFFFFF, b);
    CrcIs(a);
    CrcIs(b);
    NumberInjective(Not(x), Not(y));
    NotInjective(x, y);
  }

  lemma Crc32Fits(bytes: seq<byte>)
    ensures Crc32(bytes) < U32_LIMIT
  {
    hide Crc32, Register, Number;
    CrcIs(bytes);
    Word(Not(Register(0xFFFFFFFF, bytes)));
  }

  // ------------------------------------------------------------ words through the register

  lemma {:induction false} ShiftsAdd(c: bv32, m: nat, n: nat)
    ensures Shifts(c, m + n) == Shifts(Shifts(c, m), n)
    decreases m
  {
    hide Shift1;
    if m > 0 {
      ShiftsAdd(Shift1(c), m - 1, n);
    }
  }

  function Dropped(w: bv32, k: nat): bv32
    decreases k
  {
    if k == 0 then w else Dropped(DropByte(w), k - 1)
  }

  lemma WideOfLow(w: bv32, b: byte)
    requires b as int == Number(w) % 256
    ensures Wide(b) == Low(w)
  {
    hide Wide, Low;
    WideIsByte(b);
    BytesOfNumber(w);
    NumberInjective(Wide(b), Low(w));
  }

  /** Absorbing the lowest byte of a word, the other bytes riding along. */
  lemma AbsorbLow(c: bv32, w: bv32, b: byte)
    requires Wide(b) == Low(w)
    ensures Shifts(Xor(c, w), 8) == Xor(Absorb(c, b), DropByte(w))
  {
    hide Xor, Shifts, Halves, LowZeros, High, Low, DropByte, Wide;
    SplitBytes(w);
    XorCommutes(High(w), Low(w));
    XorAssociates(c, Low(w), High(w));
    ShiftsLinear(Xor(c, Low(w)), High(w), 8);
    HighBytesZeros(w);
    ShiftsZeros(High(w), 8);
    HalvesIsShift(High(w));
    DropLowByte(w);
  }

  /** Absorbing the low bytes of a word shifts it through the register. */
  lemma {:induction false} AbsorbWord(c: bv32, w: bv32, k: nat)
    ensures Xor(Register(c, LE(Number(w), k)), Dropped(w, k)) == Shifts(Xor(c, w), 8 * k)
    decreases k
  {
    hide Xor, Shifts, DropByte, Wide, Absorb, Low, Number;
    var bytes := LE(Number(w), k);
    if k == 0 {
      ShiftsNone(Xor(c, w));
    } else {
      var b := bytes[0];
      WideOfLow(w, b);
      AbsorbLow(c, w, b);
      BytesOfNumber(w);
      assert bytes[1..] == LE(Number(w) / 256, k - 1);
      AbsorbWord(Absorb(c, b), DropByte(w), k - 1);
      ShiftsAdd(Xor(c, w), 8, 8 * (k - 1));
    }
  }

  // ------------------------------------------------------------ bursts

  /** A byte in front of a word. */
  function Behind(x: bv32, y: bv32): bv32 { x | (y << 8) }

  /** Up to four bytes as one word, the first byte lowest. */
  function Pack(bytes: seq<byte>): bv32
    decreases bytes
  {
    if bytes == [] then 0 else Behind(Wide(bytes[0]), Pack(bytes[1..]))
  }

  /** The largest word of so many bytes. */
  function Largest(n: nat): bv32 {
    if n == 0 then 0 else if n == 1 then 0xFF else if n == 2 then 0xFFFF else if n == 3 then 0xFFFFFF else 0xFFFFFFFF
  }

  lemma JoinFits(high: bv4, low: bv4)
    ensures Join(high, low) <= 0xFF
  {
  }

  lemma WideFits(b: byte)
    ensures Wide(b) <= 0xFF
  {
    hide Join, Nibble;
    JoinFits(Nibble((b / 16) as int), Nibble((b % 16) as int));
  }

  lemma BehindFits(x: bv32, y: bv32, n: nat)
    requires x <= 0xFF && y <= Largest(n)
    ensures Behind(x, y) <= Largest(n + 1)
  {
  }

  lemma BehindParts(x: bv32, y: bv32)
    requires x <= 0xFF && y <= 0xFFFFFF
    ensures Low(Behind(x, y)) == x
    ensures DropByte(Behind(x, y)) == y
  {
  }

  lemma {:induction false} PackFits(bytes: seq<byte>)
    ensures Pack(bytes) <= Largest(|bytes|)
    decreases bytes
  {
    hide Wide, Behind, Largest;
    if bytes == [] {
      NoneLargest();
    } else {
      PackFits(bytes[1..]);
      WideFits(bytes[0]);
      BehindFits(Wide(bytes[0]), Pack(bytes[1..]), |bytes| - 1);
    }
  }

  lemma NoneLargest()
    ensures Largest(0) == 0
  {
  }

  lemma FewerFit(n: nat)
    requires n <= 3
    ensures Largest(n) <= 0xFFFFFF
  {
  }

  /** Taking a word of up to four bytes apart again. */
  lemma PackParts(bytes: seq<byte>)
    requires 0 < |bytes| <= 4
    ensures Low(Pack(bytes)) == Wide(bytes[0]) && DropByte(Pack(bytes)) == Pack(bytes[1..])
  {
    hide Wide, Behind, Largest, Low, DropByte;
    PackFits(bytes[1..]);
    FewerFit(|bytes| - 1);
    WideFits(bytes[0]);
    BehindParts(Wide(bytes[0]), Pack(bytes[1..]));
  }

  /** Absorbing up to four bytes shifts the word that they are through the register. */
  lemma {:induction false} AbsorbFew(c: bv32, bytes: seq<byte>)
    requires |bytes| <= 4
    ensures Register(c, bytes) == Shifts(Xor(c, Pack(bytes)), 8 * |bytes|)
    decreases bytes
  {
    hide Xor, Shifts, DropByte, Wide, Absorb, Low, Behind;
    if bytes == [] {
      XorZero(c);
      ShiftsNone(c);
    } else {
      var b, w := bytes[0], Pack(bytes);
      PackParts(bytes);
      AbsorbLow(c, w, b);
      AbsorbFew(Absorb(c, b), bytes[1..]);
      ShiftsAdd(Xor(c, w), 8, 8 * (|bytes| - 1));
    }
  }

  lemma {:induction false} PackInjective(a: seq<byte>, b: seq<byte>)
    requires |a| == |b| <= 4 && Pack(a) == Pack(b)
    ensures a == b
    decreases a
  {
    hide Wide, Low, DropByte, Pack;
    if a != [] {
      PackParts(a);
      PackParts(b);
      WideInjective(a[0], b[0]);
      PackInjective(a[1..], b[1..]);
      assert a == [a[0]] + a[1..] && b == [b[0]] + b[1..];
    }
  }

  /** Any change confined to four consecutive bytes, anywhere in a string of any length, changes the checksum. */
  lemma BurstChangesCrc(head: seq<byte>, a: seq<byte>, b: seq<byte>, tail: seq<byte>)
    requires |a| == |b| <= 4 && a != b
    ensures Crc32(head + a + tail) != Crc32(head + b + tail)
  {
    hide Absorb, Register, Crc32, Shifts, Xor, Pack;
    if Crc32(head + a + tail) == Crc32(head + b + tail) {
      var c := Register(0xFFFFFFFF, head);
      Crc32ReadsRegister(head + a + tail, head + b + tail);
      RegisterAppend(0xFFFFFFFF, head + a, tail);
      RegisterAppend(0xFFFFFFFF, head + b, tail);
      RegisterAppend(0xFFFFFFFF, head, a);
      RegisterAppend(0xFFFFFFFF, head, b);
      RegisterInjectiveInState(Register(c, a), Register(c, b), tail);
      AbsorbFew(c, a);
      AbsorbFew(c, b);
      ShiftsInjective(Xor(c, Pack(a)), Xor(c, Pack(b)), 8 * |a|);
      XorCancels(c, Pack(a), Pack(b));
      PackInjective(a, b);
    }
  }

  /** So does changing one byte. */
  lemma OneByteChangesCrc(bytes: seq<byte>, i: nat, b: byte)
    requires i < |bytes| && bytes[i] != b
    ensures Crc32(bytes[i := b]) != Crc32(bytes)
  {
    hide Crc32;
    var head, tail := bytes[..i], bytes[i + 1..];
    assert bytes == head + [bytes[i]] + tail;
    assert bytes[i := b] == head + [b] + tail;
    BurstChangesCrc(head, [bytes[i]], [b], tail);
  }

  // ------------------------------------------------------------ known values

  /** Eight shifts written out. */
  function Shifts8(c: bv32): bv32 {
    Shift1(Shift1(Shift1(Shift1(Shift1(Shift1(Shift1(Shift1(c))))))))
  }

  lemma EightShifts(c: bv32)
    ensures Shifts(c, 8) == Shifts8(c)
  {
    hide Shift1;
    var d := Shift1(Shift1(Shift1(Shift1(c))));
    assert Shifts(c, 8) == Shifts(d, 4);
    assert Shifts(d, 4) == Shift1(Shift1(Shift1(Shift1(d))));
  }

  lemma NothingLeft(w: bv32)
    ensures Dropped(w, 4) == 0
  {
    assert Dropped(w, 4) == w >> 8 >> 8 >> 8 >> 8;
  }

  lemma XorNot(c: bv32)
    ensures Xor(c, Not(c)) == 0xFFFFFFFF
  {
  }

  /** The register that absorbing a checksum behind its own bytes always leads to. */
  lemma OnesShifted()
    ensures Shifts(0xFFFFFFFF, 32) == 0xDEBB20E3
  {
    hide Shifts;
    ShiftsAdd(0xFFFFFFFF, 8, 24);
    EightShifts(0xFFFFFFFF);
    assert Shifts8(0xFFFFFFFF) == 0x2DFD1072;
    ShiftsAdd(0x2DFD1072, 8, 16);
    EightShifts(0x2DFD1072);
    assert Shifts8(0x2DFD1072) == 0xBE26ED00;
    ShiftsAdd(0xBE26ED00, 8, 8);
    EightShifts(0xBE26ED00);
    assert Shifts8(0xBE26ED00) == 0x00BE26ED;
    EightShifts(0x00BE26ED);
    assert Shifts8(0x00BE26ED) == 0xDEBB20E3;
  }

  /** The residue: any bytes followed by their own checksum have one and the same checksum. */
  lemma CrcResidue(bytes: seq<byte>)
    ensures Crc32(bytes + LE(Crc32(bytes), 4)) == 0x2144DF1C
  {
    hide Crc32, Register, Shifts, Xor, Dropped, LE, Not;
    var c := Register(0xFFFFFFFF, bytes);
    CrcIs(bytes);
    CrcIs(bytes + LE(Number(Not(c)), 4));
    RegisterAppend(0xFFFFFFFF, bytes, LE(Number(Not(c)), 4));
    AbsorbWord(c, Not(c), 4);
    NothingLeft(Not(c));
    XorZero(Register(c, LE(Number(Not(c)), 4)));
    XorNot(c);
    OnesShifted();
    NotIsComplement(0xDEBB20E3);
    assert Number(0xDEBB20E3) == 0xDEBB20E3;
  }

  lemma WideIs(b: byte, w: bv32)
    requires w as int == b as int
    ensures Wide(b) == w
  {
    hide Wide;
    WideIsByte(b);
    NumberInjective(Wide(b), w);
  }

  /** Absorbing one byte, given as a word too, and the number it leads to. */
  lemma OneMore(head: seq<byte>, c: bv32, b: byte, w: bv32, d: bv32)
    requires Register(0xFFFFFFFF, head) == c && w as int == b as int && Shifts8(c ^ w) == d
    ensures Register(0xFFFFFFFF, head + [b]) == d
  {
    hide Register, Shifts, Wide, Shifts8;
    WideIs(b, w);
    RegisterAppend(0xFFFFFFFF, head, [b]);
    RegisterOne(c, b);
    EightShifts(Xor(c, Wide(b)));
  }

  const DIGITS: seq<byte> := [0x31, 0x32, 0x33, 0x34, 0x35, 0x36, 0x37, 0x38, 0x39]

  lemma DigitsRegister()
    ensures Register(0xFFFFFFFF, DIGITS) == 0x340BC6D9
  {
    hide Register;
    RegisterNone(0xFFFFFFFF);
    OneMore([], 0xFFFFFFFF, 0x31, 0x31, 0x7C231048);
    OneMore([] + [0x31], 0x7C231048, 0x32, 0x32, 0xB0ACBB32);
    OneMore([] + [0x31] + [0x32], 0xB0ACBB32, 0x33, 0x33, 0x77B79C2D);
    var three := [] + [0x31] + [0x32] + [0x33];
    OneMore(three, 0x77B79C2D, 0x34, 0x34, 0x641C1F5C);
    OneMore(three + [0x34], 0x641C1F5C, 0x35, 0x35, 0x340AC5E3);
    OneMore(three + [0x34] + [0x35], 0x340AC5E3, 0x36, 0x36, 0xF68D2C9E);
    var six := three + [0x34] + [0x35] + [0x36];
    OneMore(six, 0xF68D2C9E, 0x37, 0x37, 0xAFFC9660);
    OneMore(six + [0x37], 0xAFFC9660, 0x38, 0x38, 0x651F2550);
    OneMore(six + [0x37] + [0x38], 0x651F2550, 0x39, 0x39, 0x340BC6D9);
    assert six + [0x37] + [0x38] + [0x39] == DIGITS;
  }

  /** The check value of this checksum: that of the digits 1 to 9. */
  lemma CrcOfDigits()
    ensures Crc32(DIGITS) == 0xCBF43926
  {
    hide Crc32, Register, Not;
    CrcIs(DIGITS);
    DigitsRegister();
    NotIsComplement(0x340BC6D9);
    assert Number(0x340BC6D9) == 0x340BC6D9;
  }
}
