/**
 The checksum of section 8 of RFC 1952, which Go's crc32.ChecksumIEEE computes,
 and the reason it catches every burst of up to four bytes: the shift register
 never forgets a difference, and four bytes exactly fill it.
 */
module Crc32 {
  import opened Bytes

  type Register = bv32

  const POLYNOMIAL: Register := 0xEDB88320
  const ALL_ONES: Register := 0xFFFFFFFF

  predicate Odd(c: Register) {
    c & 1 == 1
  }

  function Half(c: Register): Register {
    c >> 1
  }

  function Xor(a: Register, b: Register): Register {
    a ^ b
  }

  /** One bit of the shift register. */
  function Shift(c: Register): Register {
    if Odd(c) then Xor(POLYNOMIAL, Half(c)) else Half(c)
  }

  function Shift4(c: Register): Register {
    Shift(Shift(Shift(Shift(c))))
  }

  function Shift8(c: Register): Register {
    Shift4(Shift4(c))
  }

  function Word(b: byte): Register {
    b as bv32
  }

  function LowByte(c: Register): byte {
    (c & 0xff) as bv8
  }

  function Drop8(c: Register): Register {
    c >> 8
  }

  /** The entry of the 256-word table for one byte. */
  function TableEntry(b: byte): Register {
    Shift8(Word(b))
  }

  /** One byte through the table. */
  function UpdateByte(c: Register, b: byte): Register {
    Xor(TableEntry(LowByte(c) ^ b), Drop8(c))
  }

  function Update(c: Register, data: Bytes): Register
    decreases data
  {
    if data == [] then c else Update(UpdateByte(c, data[0]), data[1..])
  }

  function Checksum(data: Bytes): Register {
    Xor(Update(ALL_ONES, data), ALL_ONES)
  }

  /** The four little-endian bytes of a checksum. */
  function PutWord(c: Register): (s: Bytes)
    ensures |s| == 4
  {
    [LowByte(c), LowByte(c >> 8), LowByte(c >> 16), LowByte(c >> 24)]
  }

  function GetWord(s: Bytes): Register
    requires |s| == 4
  {
    Word(s[0]) | (Word(s[1]) << 8) | (Word(s[2]) << 16) | (Word(s[3]) << 24)
  }

  lemma GetPutWord(c: Register)
    ensures GetWord(PutWord(c)) == c
  {
  }

  lemma PutGetWord(s: Bytes)
    requires |s| == 4
    ensures PutWord(GetWord(s)) == s
  {
    var p := PutWord(GetWord(s));
    assert p[0] == s[0] && p[1] == s[1] && p[2] == s[2] && p[3] == s[3];
  }

  /** The checksum is written with its lowest byte first. */
  lemma WordBytes(c: Register)
    ensures var s := PutWord(c);
            s[0] as bv32 | ((s[1] as bv32) << 8) | ((s[2] as bv32) << 16) | ((s[3] as bv32) << 24) == c
  {
  }

  // ----- bit facts, each on its own so that the solver sees few of them at a time -----

  function Up(c: Register): Register {
    c << 1
  }

  function Up4(c: Register): Register {
    Up(Up(Up(Up(c))))
  }

  function Up8(c: Register): Register {
    Up4(Up4(c))
  }

  /** `w` has no bit above the lowest `31`, `28` and `24`. */
  predicate Fits31(w: Register) { w & 0x80000000 == 0 }
  predicate Fits28(w: Register) { w & 0xF0000000 == 0 }
  predicate Fits24(w: Register) { w & 0xFF000000 == 0 }

  lemma OddXorUp(x: Register, y: Register)
    ensures Odd(Xor(x, Up(y))) == Odd(x)
  {
  }

  lemma HalfXorUp(x: Register, y: Register)
    requires Fits31(y)
    ensures Half(Xor(x, Up(y))) == Xor(Half(x), y)
  {
  }

  lemma XorAssociative(x: Register, y: Register, z: Register)
    ensures Xor(x, Xor(y, z)) == Xor(Xor(x, y), z)
  {
  }

  lemma XorInjective(p: Register, a: Register, b: Register)
    requires Xor(p, a) == Xor(p, b)
    ensures a == b
  {
  }

  lemma HalfOddInjective(a: Register, b: Register)
    requires Half(a) == Half(b) && Odd(a) == Odd(b)
    ensures a == b
  {
  }

  /** The polynomial's top bit tells an odd step from an even one. */
  lemma OddStepsDiffer(a: Register, b: Register)
    ensures Xor(POLYNOMIAL, Half(a)) != Half(b)
  {
  }

  lemma Fits28Up(y: Register)
    requires Fits28(y)
    ensures Fits31(y) && Fits31(Up(y)) && Fits31(Up(Up(y))) && Fits31(Up(Up(Up(y))))
  {
  }

  lemma Fits24Up(y: Register)
    requires Fits24(y)
    ensures Fits28(y) && Fits28(Up4(y))
  {
  }

  lemma SplitLowByte(c: Register, b: byte)
    ensures Xor(c, Word(b)) == Xor(Word(LowByte(c) ^ b), Up8(Drop8(c)))
    ensures Fits24(Drop8(c))
  {
  }

  lemma LowByteOfXorUp8(b: byte, w: Register)
    requires Fits24(w)
    ensures LowByte(Xor(Word(b), Up8(w))) == b
    ensures Drop8(Xor(Word(b), Up8(w))) == w
  {
  }

  // ----- the register loses nothing -----

  lemma ShiftInjective(a: Register, b: Register)
    requires Shift(a) == Shift(b)
    ensures a == b
  {
    hide Odd, Half, Xor;
    OddStepsDiffer(a, b);
    OddStepsDiffer(b, a);
    if Odd(a) && Odd(b) {
      XorInjective(POLYNOMIAL, Half(a), Half(b));
    }
    HalfOddInjective(a, b);
  }

  lemma Shift4Injective(a: Register, b: Register)
    requires Shift4(a) == Shift4(b)
    ensures a == b
  {
    hide Shift;
    ShiftInjective(Shift(Shift(Shift(a))), Shift(Shift(Shift(b))));
    ShiftInjective(Shift(Shift(a)), Shift(Shift(b)));
    ShiftInjective(Shift(a), Shift(b));
    ShiftInjective(a, b);
  }

  lemma Shift8Injective(a: Register, b: Register)
    requires Shift8(a) == Shift8(b)
    ensures a == b
  {
    hide Shift4;
    Shift4Injective(Shift4(a), Shift4(b));
    Shift4Injective(a, b);
  }

  /** Bits above the lowest one pass through a shift untouched. */
  lemma ShiftLinear(x: Register, y: Register)
    requires Fits31(y)
    ensures Shift(Xor(x, Up(y))) == Xor(Shift(x), y)
  {
    hide Odd, Half, Xor, Up, Fits31;
    OddXorUp(x, y);
    HalfXorUp(x, y);
    XorAssociative(POLYNOMIAL, Half(x), y);
  }

  lemma Shift4Linear(x: Register, y: Register)
    requires Fits28(y)
    ensures Shift4(Xor(x, Up4(y))) == Xor(Shift4(x), y)
  {
    hide Shift, Xor, Up, Fits31, Fits28;
    Fits28Up(y);
    ShiftLinear(x, Up(Up(Up(y))));
    ShiftLinear(Shift(x), Up(Up(y)));
    ShiftLinear(Shift(Shift(x)), Up(y));
    ShiftLinear(Shift(Shift(Shift(x))), y);
  }

  lemma Shift8Linear(x: Register, y: Register)
    requires Fits24(y)
    ensures Shift8(Xor(x, Up8(y))) == Xor(Shift8(x), y)
  {
    hide Shift4, Xor, Up4, Fits28, Fits24;
    Fits24Up(y);
    Shift4Linear(x, Up4(y));
    Shift4Linear(Shift4(x), y);
  }

  /** The table form is the bit-by-bit form. */
  lemma UpdateByteIsShift8(c: Register, b: byte)
    ensures UpdateByte(c, b) == Shift8(Xor(c, Word(b)))
  {
    hide Shift8, Xor, Up8, Word, LowByte, Drop8, Fits24;
    SplitLowByte(c, b);
    Shift8Linear(Word(LowByte(c) ^ b), Drop8(c));
  }

  lemma {:induction false} UpdateConcat(c: Register, a: Bytes, b: Bytes)
    ensures Update(c, a + b) == Update(Update(c, a), b)
    decreases a
  {
    hide UpdateByte;
    if a == [] {
      assert a + b == b;
    } else {
      assert (a + b)[1..] == a[1..] + b;
      UpdateConcat(UpdateByte(c, a[0]), a[1..], b);
    }
  }

  /** Two registers that differ still differ after the same bytes. */
  lemma {:induction false} UpdateInjective(c: Register, d: Register, data: Bytes)
    requires Update(c, data) == Update(d, data)
    ensures c == d
    decreases data
  {
    hide UpdateByte, Word, Shift8;
    if data != [] {
      UpdateInjective(UpdateByte(c, data[0]), UpdateByte(d, data[0]), data[1..]);
      UpdateByteIsShift8(c, data[0]);
      UpdateByteIsShift8(d, data[0]);
      Shift8Injective(Xor(c, Word(data[0])), Xor(d, Word(data[0])));
      XorInjective(Word(data[0]), c, d);
    }
  }

  // ----- up to four bytes fill the register -----

  /** The little-endian word of up to four bytes. */
  function WordOf(run: Bytes): Register {
    if run == [] then 0 else Xor(Word(run[0]), Up8(WordOf(run[1..])))
  }

  lemma WordFits(b: byte, w: Register)
    ensures w & 0xFFFFFF00 == 0 ==> Xor(Word(b), Up8(w)) & 0xFFFF0000 == 0
    ensures w & 0xFFFF0000 == 0 ==> Fits24(Xor(Word(b), Up8(w)))
    ensures Xor(Word(b), Up8(0)) & 0xFFFFFF00 == 0
  {
  }

  lemma WordOfFits(run: Bytes)
    requires |run| <= 3
    ensures Fits24(WordOf(run))
    ensures |run| <= 2 ==> WordOf(run) & 0xFFFF0000 == 0
    ensures |run| <= 1 ==> WordOf(run) & 0xFFFFFF00 == 0
  {
    if run != [] {
      WordOfFits(run[1..]);
      WordFits(run[0], WordOf(run[1..]));
    }
  }

  lemma {:induction false} WordOfInjective(a: Bytes, b: Bytes)
    requires |a| == |b| <= 4
    requires WordOf(a) == WordOf(b)
    ensures a == b
  {
    if a != [] {
      WordOfFits(a[1..]);
      WordOfFits(b[1..]);
      hide Xor, Word, Up8, LowByte, Drop8;
      LowByteOfXorUp8(a[0], WordOf(a[1..]));
      LowByteOfXorUp8(b[0], WordOf(b[1..]));
      WordOfInjective(a[1..], b[1..]);
      assert a == [a[0]] + a[1..] && b == [b[0]] + b[1..];
    }
  }

  function ShiftBytes(c: Register, count: nat): Register
    decreases count
  {
    if count == 0 then c else ShiftBytes(Shift8(c), count - 1)
  }

  lemma {:induction false} ShiftBytesInjective(a: Register, b: Register, count: nat)
    requires ShiftBytes(a, count) == ShiftBytes(b, count)
    ensures a == b
    decreases count
  {
    hide Shift8;
    if count > 0 {
      ShiftBytesInjective(Shift8(a), Shift8(b), count - 1);
      Shift8Injective(a, b);
    }
  }

  /** A short run can be folded into the register before any shifting. */
  lemma {:induction false} UpdateShortRun(c: Register, run: Bytes)
    requires |run| <= 4
    ensures Update(c, run) == ShiftBytes(Xor(c, WordOf(run)), |run|)
    decreases run
  {
    if run == [] {
    } else {
      var w := WordOf(run[1..]);
      WordOfFits(run[1..]);
      UpdateByteIsShift8(c, run[0]);
      UpdateShortRun(UpdateByte(c, run[0]), run[1..]);
      hide UpdateByte, Shift8, Xor, Word, Up8, Fits24;
      Shift8Linear(Xor(c, Word(run[0])), w);
      XorAssociative(c, Word(run[0]), Up8(w));
    }
  }

  /**
   Changing any run of up to four consecutive bytes, anywhere in the data,
   changes the checksum.
   */
  lemma BurstChangesChecksum(before: Bytes, run: Bytes, changed: Bytes, after: Bytes)
    requires |run| == |changed| <= 4 && run != changed
    ensures Checksum(before + run + after) != Checksum(before + changed + after)
  {
    if Checksum(before + run + after) == Checksum(before + changed + after) {
      var c := Update(ALL_ONES, before);
      UpdateConcat(ALL_ONES, before + run, after);
      UpdateConcat(ALL_ONES, before, run);
      UpdateConcat(ALL_ONES, before + changed, after);
      UpdateConcat(ALL_ONES, before, changed);
      SameChecksum(Update(c, run), Update(c, changed), after);
      UpdateShortRun(c, run);
      UpdateShortRun(c, changed);
      ShiftBytesInjective(Xor(c, WordOf(run)), Xor(c, WordOf(changed)), |run|);
      XorInjective(c, WordOf(run), WordOf(changed));
      WordOfInjective(run, changed);
    }
  }

  lemma SameChecksum(c: Register, d: Register, after: Bytes)
    requires Xor(Update(c, after), ALL_ONES) == Xor(Update(d, after), ALL_ONES)
    ensures c == d
  {
    var u, v := Update(c, after), Update(d, after);
    assert u == v;
    UpdateInjective(c, d, after);
  }

  // ----- which polynomial, which bit order -----

  lemma CheckDigits123()
    ensures Update(ALL_ONES, [0x31, 0x32, 0x33]) == 0x77B79C2D
  {
    assert UpdateByte(ALL_ONES, 0x31) == 0x7C231048;
    assert UpdateByte(0x7C231048, 0x32) == 0xB0ACBB32;
    assert UpdateByte(0xB0ACBB32, 0x33) == 0x77B79C2D;
  }

  lemma CheckDigits456()
    ensures Update(0x77B79C2D, [0x34, 0x35, 0x36]) == 0xF68D2C9E
  {
    assert UpdateByte(0x77B79C2D, 0x34) == 0x641C1F5C;
    assert UpdateByte(0x641C1F5C, 0x35) == 0x340AC5E3;
    assert UpdateByte(0x340AC5E3, 0x36) == 0xF68D2C9E;
  }

  lemma CheckDigits789()
    ensures Update(0xF68D2C9E, [0x37, 0x38, 0x39]) == 0x340BC6D9
  {
    assert UpdateByte(0xF68D2C9E, 0x37) == 0xAFFC9660;
    assert UpdateByte(0xAFFC9660, 0x38) == 0x651F2550;
    assert UpdateByte(0x651F2550, 0x39) == 0x340BC6D9;
  }

  lemma FinalComplement()
    ensures Xor(0x340BC6D9, ALL_ONES) == 0xCBF43926
  {
  }

  /** The published check value of this CRC: the nine ASCII digits 1 to 9. */
  lemma CheckValue()
    ensures Checksum([0x31, 0x32, 0x33, 0x34, 0x35, 0x36, 0x37, 0x38, 0x39]) == 0xCBF43926
  {
    hide Update, Xor;
    var a: Bytes, b: Bytes, c: Bytes := [0x31, 0x32, 0x33], [0x34, 0x35, 0x36], [0x37, 0x38, 0x39];
    CheckDigits123();
    CheckDigits456();
    CheckDigits789();
    UpdateConcat(ALL_ONES, a, b);
    UpdateConcat(ALL_ONES, a + b, c);
    assert a + b + c == [0x31, 0x32, 0x33, 0x34, 0x35, 0x36, 0x37, 0x38, 0x39];
    FinalComplement();
  }
}
