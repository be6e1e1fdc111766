/** The CRC-32 of the archive writer: the byte table against the bit-serial register. */
module Crc32 {
  import opened Bytes

  /** The reflected generator polynomial. */
  const POLYNOMIAL: bv32 := 0xEDB8_8320

  /** The register before the first byte, and the mask applied after the last one. */
  const ALL_ONES: bv32 := 0xFFFF_FFFF

  function Iterate<T>(f: T -> T, x: T, n: nat): T
    decreases n
  {
    if n == 0 then x else Iterate(f, f(x), n - 1)
  }

  function Fold<T>(f: (T, byte) -> T, x: T, s: bytes): T
    decreases |s|
  {
    if s == [] then x else Fold(f, f(x, s[0]), s[1..])
  }

  /** One clock of the shift register. */
  function Clock(x: bv32): bv32 {
    if x & 1 == 1 then (x >> 1) ^ POLYNOMIAL else x >> 1
  }

  function EightClocks(x: bv32): bv32 {
    Iterate(Clock, x, 8)
  }

  function Widen(b: byte): bv32 {
    (b as bv8) as bv32
  }

  function LowByte(x: bv32): byte {
    ((x & 0xFF) as bv8) as int
  }

  function Xor(x: bv32, y: bv32): bv32 {
    x ^ y
  }

  function XorByte(x: bv32, b: byte): bv32 {
    Xor(x, Widen(b))
  }

  /** One byte by the definition of CRC-32, which knows no table. */
  function SerialByte(x: bv32, b: byte): bv32 {
    EightClocks(XorByte(x, b))
  }

  function BitSerial(state: bv32, s: bytes): bv32 {
    Fold(SerialByte, state, s)
  }

  function Complement(x: bv32): bv32 {
    Xor(x, ALL_ONES)
  }

  /** The finished checksum of one whole payload. */
  function Checksum(s: bytes): bv32 {
    Complement(BitSerial(ALL_ONES, s))
  }

  /** What the lookup table must hold. */
  ghost predicate IsTable(table: seq<bv32>) {
    |table| == 256 && forall i: byte :: table[i] == EightClocks(Widen(i))
  }

  /** One byte through the table. */
  function TableByte(table: seq<bv32>, x: bv32, b: byte): bv32
    requires |table| == 256
  {
    (x >> 8) ^ table[LowByte(XorByte(x, b))]
  }

  /** Fills the 256 table entries, each by clocking its index eight times. */
  method BuildTable() returns (table: seq<bv32>)
    ensures IsTable(table)
  {
    table := [];
    for index := 0 to 256
      invariant |table| == index
      invariant forall i: byte :: i < index ==> table[i] == EightClocks(Widen(i))
    {
      var value := Widen(index);
      for bit := 0 to 8
        invariant Iterate(Clock, value, 8 - bit) == EightClocks(Widen(index))
      {
        value := if value & 1 == 1 then (value >> 1) ^ POLYNOMIAL else value >> 1;
      }
      table := table + [value];
    }
  }

  // ---- Facts about any register type ----

  lemma {:induction false} IterateIsLinear<T(!new)>(f: T -> T, plus: (T, T) -> T, x: T, y: T, n: nat)
    requires forall a, b :: f(plus(a, b)) == plus(f(a), f(b))
    ensures Iterate(f, plus(x, y), n) == plus(Iterate(f, x, n), Iterate(f, y, n))
    decreases n
  {
    if n > 0 {
      IterateIsLinear(f, plus, f(x), f(y), n - 1);
    }
  }

  lemma {:induction false} IterateIsInjective<T(!new)>(f: T -> T, x: T, y: T, n: nat)
    requires forall a, b :: f(a) == f(b) ==> a == b
    requires Iterate(f, x, n) == Iterate(f, y, n)
    ensures x == y
    decreases n
  {
    if n > 0 {
      IterateIsInjective(f, f(x), f(y), n - 1);
    }
  }

  lemma {:induction false} FoldSplits<T>(f: (T, byte) -> T, x: T, left: bytes, right: bytes)
    ensures Fold(f, x, left + right) == Fold(f, Fold(f, x, left), right)
    decreases |left|
  {
    if left == [] {
      assert left + right == right;
    } else {
      assert (left + right)[1..] == left[1..] + right;
      FoldSplits(f, f(x, left[0]), left[1..], right);
    }
  }

  lemma {:induction false} FoldIsInjective<T(!new)>(f: (T, byte) -> T, x: T, y: T, s: bytes)
    requires forall a, b, c :: f(a, c) == f(b, c) ==> a == b
    requires Fold(f, x, s) == Fold(f, y, s)
    ensures x == y
    decreases |s|
  {
    if s != [] {
      FoldIsInjective(f, f(x, s[0]), f(y, s[0]), s[1..]);
    }
  }

  /** Two registers that agree byte for byte fold alike. */
  lemma {:induction false} FoldsAgree<T(!new)>(f: (T, byte) -> T, g: (T, byte) -> T, x: T, s: bytes)
    requires forall a, b :: f(a, b) == g(a, b)
    ensures Fold(f, x, s) == Fold(g, x, s)
    decreases |s|
  {
    if s != [] {
      FoldsAgree(f, g, f(x, s[0]), s[1..]);
    }
  }

  lemma FoldOne<T>(f: (T, byte) -> T, x: T, b: byte)
    ensures Fold(f, x, [b]) == f(x, b)
  {
    assert Fold(f, x, [b]) == Fold(f, f(x, b), [b][1..]);
  }

  // ---- Facts about 32-bit words, each decided alone ----

  lemma OddClock(x: bv32)
    requires x & 1 == 1
    ensures Clock(x) == (x >> 1) ^ POLYNOMIAL
  {
  }

  lemma EvenClock(x: bv32)
    requires x & 1 != 1
    ensures Clock(x) == x >> 1
  {
  }

  lemma XorOddOdd(x: bv32, y: bv32)
    requires x & 1 == 1 && y & 1 == 1
    ensures (x ^ y) & 1 != 1
    ensures (x ^ y) >> 1 == ((x >> 1) ^ POLYNOMIAL) ^ ((y >> 1) ^ POLYNOMIAL)
  {
  }

  lemma XorOddEven(x: bv32, y: bv32)
    requires x & 1 == 1 && y & 1 != 1
    ensures (x ^ y) & 1 == 1
    ensures ((x ^ y) >> 1) ^ POLYNOMIAL == ((x >> 1) ^ POLYNOMIAL) ^ (y >> 1)
  {
  }

  lemma XorEvenEven(x: bv32, y: bv32)
    requires x & 1 != 1 && y & 1 != 1
    ensures (x ^ y) & 1 != 1
    ensures (x ^ y) >> 1 == (x >> 1) ^ (y >> 1)
  {
  }

  lemma XorCancels(x: bv32, y: bv32, m: bv32)
    requires Xor(x, m) == Xor(y, m)
    ensures x == y
  {
  }

  lemma PlainXorCommutes(x: bv32, y: bv32)
    ensures x ^ y == y ^ x
  {
  }

  lemma ClockLinearOdd(x: bv32, y: bv32)
    requires x & 1 == 1
    ensures Clock(x ^ y) == Clock(x) ^ Clock(y)
  {
    OddClock(x);
    if y & 1 == 1 {
      XorOddOdd(x, y); OddClock(y); EvenClock(x ^ y);
    } else {
      XorOddEven(x, y); EvenClock(y); OddClock(x ^ y);
    }
  }

  lemma ClockLinearEven(x: bv32, y: bv32)
    requires x & 1 != 1 && y & 1 != 1
    ensures Clock(x ^ y) == Clock(x) ^ Clock(y)
  {
    XorEvenEven(x, y); EvenClock(x); EvenClock(y); EvenClock(x ^ y);
  }

  /** One clock of the register is linear over xor. */
  lemma ClockIsLinear(x: bv32, y: bv32)
    ensures Clock(x ^ y) == Clock(x) ^ Clock(y)
  {
    if x & 1 == 1 {
      ClockLinearOdd(x, y);
    } else if y & 1 == 1 {
      ClockLinearOdd(y, x);
      PlainXorCommutes(x, y);
      PlainXorCommutes(Clock(x), Clock(y));
    } else {
      ClockLinearEven(x, y);
    }
  }

  lemma ClockIsInjective(x: bv32, y: bv32)
    requires Clock(x) == Clock(y)
    ensures x == y
  {
  }

  function ShiftOne(x: bv32): bv32 {
    x >> 1
  }

  /** The low `n` bits are clear. */
  predicate LowBitsClear(n: nat, x: bv32) {
    (n >= 1 ==> x & 0x01 == 0) && (n >= 2 ==> x & 0x02 == 0) && (n >= 3 ==> x & 0x04 == 0)
    && (n >= 4 ==> x & 0x08 == 0) && (n >= 5 ==> x & 0x10 == 0) && (n >= 6 ==> x & 0x20 == 0)
    && (n >= 7 ==> x & 0x40 == 0) && (n >= 8 ==> x & 0x80 == 0) && n <= 8
  }

  lemma ClearClock(n: nat, x: bv32)
    requires LowBitsClear(n, x) && n > 0
    ensures Clock(x) == ShiftOne(x) && LowBitsClear(n - 1, ShiftOne(x))
  {
  }

  lemma {:induction false} IterateAgrees<T(!new)>(f: T -> T, g: T -> T, p: (nat, T) -> bool, x: T, n: nat)
    requires forall k: nat, a :: p(k, a) && k > 0 ==> f(a) == g(a) && p(k - 1, g(a))
    requires p(n, x)
    ensures Iterate(f, x, n) == Iterate(g, x, n)
    decreases n
  {
    if n > 0 {
      IterateAgrees(f, g, p, g(x), n - 1);
    }
  }

  lemma EightShifts(x: bv32)
    ensures Iterate(ShiftOne, x, 8) == x >> 8
  {
    Unroll8(ShiftOne, x);
  }

  lemma {:induction false} Unroll8<T>(f: T -> T, x: T)
    ensures Iterate(f, x, 8) == f(f(f(f(f(f(f(f(x))))))))
  {
    assert Iterate(f, x, 8) == Iterate(f, f(f(x)), 6);
    assert Iterate(f, f(f(x)), 6) == Iterate(f, f(f(f(f(x)))), 4);
    assert Iterate(f, f(f(f(f(x)))), 4) == Iterate(f, f(f(f(f(f(f(x)))))), 2);
  }

  lemma ClearByte(x: bv32)
    requires x & 0xFF == 0
    ensures LowBitsClear(8, x)
  {
  }

  /** A register whose low byte is clear only shifts for eight clocks. */
  lemma ClearLowByteShifts(x: bv32)
    requires x & 0xFF == 0
    ensures EightClocks(x) == x >> 8
  {
    forall k: nat, a | LowBitsClear(k, a) && k > 0
      ensures Clock(a) == ShiftOne(a) && LowBitsClear(k - 1, ShiftOne(a))
    {
      ClearClock(k, a);
    }
    ClearByte(x);
    IterateAgrees(Clock, ShiftOne, LowBitsClear, x, 8);
    EightShifts(x);
  }

  lemma LowByteIs(x: bv32, w: bv8)
    requires w == (x & 0xFF) as bv8
    ensures LowByte(x) == w as int
    ensures w as bv32 == x & 0xFF
  {
  }

  lemma WidenIs(w: bv8)
    ensures Widen(w as int) == w as bv32
  {
    var b: byte := w as int;
    BackToWord(w, b);
    WidenOf(b, w);
  }

  lemma BackToWord(w: bv8, b: byte)
    requires b == w as int
    ensures b as bv8 == w
  {
  }

  lemma WidenOf(b: byte, w: bv8)
    requires b as bv8 == w
    ensures Widen(b) == w as bv32
  {
  }

  lemma WidenLowByte(x: bv32)
    ensures Widen(LowByte(x)) == x & 0xFF
  {
    var w := (x & 0xFF) as bv8;
    LowByteIs(x, w);
    WidenIs(w);
  }

  lemma WideningIsInjective(v: bv8, w: bv8)
    requires v as bv32 == w as bv32
    ensures v == w
  {
  }

  lemma NextWord(w: bv8)
    requires w as int < 255
    ensures (w + 1) as int == w as int + 1
  {
  }

  /** Every byte is the value of a word. */
  lemma {:induction false} WordOf(b: byte) returns (w: bv8)
    ensures w as int == b
    decreases b
  {
    if b == 0 {
      w := 0;
    } else {
      var v := WordOf(b - 1);
      NextWord(v);
      w := v + 1;
    }
  }

  lemma WidenIsInjective(b: byte, c: byte)
    requires Widen(b) == Widen(c)
    ensures b == c
  {
    var v := WordOf(b);
    var w := WordOf(c);
    BackToWord(v, b);
    BackToWord(w, c);
    WideningIsInjective(v, w);
  }

  lemma SplitLowByte(x: bv32)
    ensures (x & 0xFFFF_FF00) & 0xFF == 0
    ensures (x & 0xFFFF_FF00) ^ (x & 0xFF) == x
    ensures (x & 0xFFFF_FF00) >> 8 == x >> 8
  {
  }

  lemma ByteIsBelowTheShift(x: bv32, b: byte)
    ensures XorByte(x, b) >> 8 == x >> 8
  {
    SmallIsBelowTheShift(x, b as bv8);
  }

  lemma SmallIsBelowTheShift(x: bv32, w: bv8)
    ensures (x ^ (w as bv32)) >> 8 == x >> 8
  {
  }

  lemma EightClocksAreLinear(x: bv32, y: bv32)
    ensures EightClocks(Xor(x, y)) == Xor(EightClocks(x), EightClocks(y))
  {
    forall a, b
      ensures Clock(Xor(a, b)) == Xor(Clock(a), Clock(b))
    {
      ClockIsLinear(a, b);
    }
    IterateIsLinear(Clock, Xor, x, y, 8);
  }

  lemma EightClocksAreInjective(x: bv32, y: bv32)
    requires EightClocks(x) == EightClocks(y)
    ensures x == y
  {
    forall a, b | Clock(a) == Clock(b)
      ensures a == b
    {
      ClockIsInjective(a, b);
    }
    IterateIsInjective(Clock, x, y, 8);
  }

  lemma EightClocksSplit(x: bv32)
    ensures EightClocks(x) == Xor(x >> 8, EightClocks(x & 0xFF))
  {
    var high, low := x & 0xFFFF_FF00, x & 0xFF;
    SplitLowByte(x);
    assert Xor(high, low) == x;
    EightClocksAreLinear(high, low);
    ClearLowByteShifts(high);
  }

  /** The table step equals eight bit-serial clocks, for every register and byte. */
  lemma TableByteIsSerial(table: seq<bv32>, x: bv32, b: byte)
    requires IsTable(table)
    ensures TableByte(table, x, b) == SerialByte(x, b)
  {
    var y := XorByte(x, b);
    EightClocksSplit(y);
    WidenLowByte(y);
    ByteIsBelowTheShift(x, b);
    assert table[LowByte(y)] == EightClocks(Widen(LowByte(y)));
  }

  /** Folds one streamed range into an unfinished register through the table. */
  method UpdateCrc32(table: seq<bv32>, previous: bv32, s: bytes) returns (crc: bv32)
    requires IsTable(table)
    ensures crc == BitSerial(previous, s)
  {
    crc := previous;
    for i := 0 to |s|
      invariant BitSerial(previous, s) == BitSerial(crc, s[i..])
    {
      TableByteIsSerial(table, crc, s[i]);
      assert s[i..][1..] == s[i + 1..];
      crc := TableByte(table, crc, s[i]);
    }
  }

  /** Folding over any split of a payload is folding over the whole payload. */
  lemma BitSerialSplits(state: bv32, left: bytes, right: bytes)
    ensures BitSerial(state, left + right) == BitSerial(BitSerial(state, left), right)
  {
    FoldSplits(SerialByte, state, left, right);
  }

  lemma SerialByteInjective(x: bv32, y: bv32, b: byte)
    requires SerialByte(x, b) == SerialByte(y, b)
    ensures x == y
  {
    EightClocksAreInjective(XorByte(x, b), XorByte(y, b));
    XorCancels(x, y, Widen(b));
  }

  lemma XorCommutes(x: bv32, y: bv32)
    ensures Xor(x, y) == Xor(y, x)
  {
  }

  lemma XorSeesTheByte(x: bv32, b: byte, c: byte)
    requires XorByte(x, b) == XorByte(x, c)
    ensures b == c
  {
    XorCommutes(x, Widen(b));
    XorCommutes(x, Widen(c));
    XorCancels(Widen(b), Widen(c), x);
    WidenIsInjective(b, c);
  }

  lemma SerialByteSeesTheByte(x: bv32, b: byte, c: byte)
    requires SerialByte(x, b) == SerialByte(x, c)
    ensures b == c
  {
    EightClocksAreInjective(XorByte(x, b), XorByte(x, c));
    XorSeesTheByte(x, b, c);
  }

  /** The checksum tells apart any two payloads that differ in exactly one byte. */
  lemma ChecksumDetectsOneByte(left: bytes, b: byte, c: byte, right: bytes)
    ensures Checksum(left + [b] + right) == Checksum(left + [c] + right) <==> b == c
  {
    if Checksum(left + [b] + right) == Checksum(left + [c] + right) {
      XorCancels(BitSerial(ALL_ONES, left + [b] + right), BitSerial(ALL_ONES, left + [c] + right), ALL_ONES);
      RegistersDetectOneByte(left, b, c, right);
    }
  }

  lemma RegistersDetectOneByte(left: bytes, b: byte, c: byte, right: bytes)
    requires BitSerial(ALL_ONES, left + [b] + right) == BitSerial(ALL_ONES, left + [c] + right)
    ensures b == c
  {
    var state := BitSerial(ALL_ONES, left);
    RegisterAfter(left, b, right);
    RegisterAfter(left, c, right);
    forall p, q, d | SerialByte(p, d) == SerialByte(q, d)
      ensures p == q
    {
      SerialByteInjective(p, q, d);
    }
    FoldIsInjective(SerialByte, SerialByte(state, b), SerialByte(state, c), right);
    SerialByteSeesTheByte(state, b, c);
  }

  lemma RegisterAfter(left: bytes, b: byte, right: bytes)
    ensures BitSerial(ALL_ONES, left + [b] + right)
            == BitSerial(SerialByte(BitSerial(ALL_ONES, left), b), right)
  {
    BitSerialSplits(ALL_ONES, left + [b], right);
    BitSerialSplits(ALL_ONES, left, [b]);
    FoldOne(SerialByte, BitSerial(ALL_ONES, left), b);
  }
}
