/** Bytes and little-endian numbers, as Go's encoding/binary lays them out. */
module Bytes {

  type byte = bv8
  type Bytes = seq<byte>

  const TWO_8: nat := 0x100
  const TWO_31: nat := 0x8000_0000
  const TWO_32: nat := 0x1_0000_0000
  const TWO_64: nat := 0x1_0000_0000_0000_0000

  type uint32 = n: nat | n < TWO_32
  type uint64 = n: nat | n < TWO_64

  /** The value of a byte. */
  function IntOf(b: byte): (n: nat)
    ensures n < TWO_8
  {
    b as int
  }

  /** The byte with value `n`. */
  function ByteOf(n: nat): (b: byte)
    requires n < TWO_8
    ensures IntOf(b) == n
  {
    ByteOfValue(n);
    n as bv8
  }

  /** Counting up one at a time spares the solver from converting an unknown number. */
  lemma ByteOfValue(n: nat)
    requires n < TWO_8
    ensures IntOf(n as bv8) == n
  {
    var b := ByteExists(n);
    assert IntOf(b) as bv8 == b;
  }

  lemma ByteExists(n: nat) returns (b: byte)
    requires n < TWO_8
    ensures IntOf(b) == n
  {
    if n == 0 {
      b := 0;
    } else {
      var c := ByteExists(n - 1);
      b := c + 1;
    }
  }

  lemma IntOfInjective(a: byte, b: byte)
    requires IntOf(a) == IntOf(b)
    ensures a == b
  {
    assert IntOf(a) as bv8 == a && IntOf(b) as bv8 == b;
  }

  /** 256 to the power `width`: the number of values `width` bytes can hold. */
  function Span(width: nat): (n: nat)
    ensures n > 0
  {
    if width == 0 then 1 else TWO_8 * Span(width - 1)
  }

  /** The low `width` bytes of `v`, least significant first. */
  function PutLe(v: nat, width: nat): (s: Bytes)
    ensures |s| == width
  {
    if width == 0 then [] else [ByteOf(v % TWO_8)] + PutLe(v / TWO_8, width - 1)
  }

  /** The number whose little-endian bytes are `s`. */
  function GetLe(s: Bytes): (n: nat)
  {
    if s == [] then 0 else IntOf(s[0]) + TWO_8 * GetLe(s[1..])
  }

  lemma SpanValues()
    ensures Span(4) == TWO_32
    ensures Span(8) == TWO_64
  {
    assert Span(4) == TWO_8 * (TWO_8 * (TWO_8 * (TWO_8 * Span(0))));
    assert Span(8) == TWO_8 * (TWO_8 * (TWO_8 * (TWO_8 * Span(4))));
  }

  lemma {:induction false} GetLeBound(s: Bytes)
    ensures GetLe(s) < Span(|s|)
  {
    if s != [] {
      GetLeBound(s[1..]);
    }
  }

  lemma {:induction false} GetPutLe(v: nat, width: nat)
    ensures GetLe(PutLe(v, width)) == v % Span(width)
  {
    if width != 0 {
      GetPutLe(v / TWO_8, width - 1);
      var s := PutLe(v, width);
      assert s[1..] == PutLe(v / TWO_8, width - 1);
      ModSplit(v, Span(width - 1));
    }
  }

  /** Splitting off the lowest byte of a remainder. */
  lemma ModSplit(v: nat, m: nat)
    requires m > 0
    ensures v % (TWO_8 * m) == v % TWO_8 + TWO_8 * ((v / TWO_8) % m)
  {
    var q, r := v / TWO_8, v % TWO_8;
    var a, b := q / m, q % m;
    assert v == TWO_8 * q + r && q == m * a + b;
    assert v == (TWO_8 * m) * a + (TWO_8 * b + r) by {
      assert TWO_8 * (m * a) == (TWO_8 * m) * a;
    }
    assert b + 1 <= m;
    RemainderUnique(v, TWO_8 * m, a, TWO_8 * b + r);
  }

  /** A number has one quotient and one remainder. */
  lemma RemainderUnique(v: nat, m: nat, a: nat, b: nat)
    requires b < m && v == m * a + b
    ensures v % m == b && v / m == a
  {
    var q, r := v / m, v % m;
    assert v == m * q + r;
    if q > a {
      QuotientsAgree(m, q, r, a, b);
    } else if q < a {
      QuotientsAgree(m, a, b, q, r);
    }
  }

  lemma TimesAtLeast(m: nat, d: nat)
    requires d >= 1
    ensures m * d >= m
  {
  }

  lemma QuotientsAgree(m: nat, q: nat, r: nat, a: nat, b: nat)
    requires m * q + r == m * a + b
    requires b < m && r < m && q >= a
    ensures q == a && r == b
  {
    var d := q - a;
    assert m * q == m * a + m * d;
    assert d == 0 by {
      if d >= 1 {
        TimesAtLeast(m, d);
      }
    }
  }

  lemma SmallRemainder(v: nat, m: nat)
    requires v < m
    ensures v % m == v
  {
    RemainderUnique(v, m, 0, v);
  }

  lemma {:induction false} PutGetLe(s: Bytes)
    ensures PutLe(GetLe(s), |s|) == s
  {
    if s != [] {
      PutGetLe(s[1..]);
      var v := GetLe(s);
      RemainderUnique(v, TWO_8, GetLe(s[1..]), IntOf(s[0]));
      IntOfInjective(ByteOf(v % TWO_8), s[0]);
      assert s == [s[0]] + s[1..];
    }
  }

  /** Within range, writing and reading back are inverse. */
  lemma LeRoundTrip(v: nat, width: nat)
    requires v < Span(width)
    ensures GetLe(PutLe(v, width)) == v
  {
    GetPutLe(v, width);
    SmallRemainder(v, Span(width));
  }

  // ----- which byte is where -----

  /** The first four bytes of a number, the lowest first, and the rest. */
  lemma FirstFour(s: Bytes)
    requires |s| >= 4
    ensures GetLe(s) == s[0] as nat + 0x100 * s[1] as nat + 0x1_0000 * s[2] as nat + 0x100_0000 * s[3] as nat
                        + 0x1_0000_0000 * GetLe(s[4..])
  {
    FirstOne(s);
    FirstOne(s[1..]);
    FirstOne(s[2..]);
    FirstOne(s[3..]);
    assert s[1..][1..] == s[2..] && s[2..][1..] == s[3..] && s[3..][1..] == s[4..];
    hide GetLe;
  }

  lemma NoBytes()
    ensures GetLe([]) == 0
  {
  }

  lemma FirstOne(s: Bytes)
    requires s != []
    ensures GetLe(s) == s[0] as nat + 0x100 * GetLe(s[1..])
  {
  }

  /** A 32-bit number is written with its lowest byte first. */
  lemma WordWritten(v: uint32)
    ensures var s := PutLe(v, 4);
            s[0] as nat + 0x100 * s[1] as nat + 0x1_0000 * s[2] as nat + 0x100_0000 * s[3] as nat == v
  {
    hide PutLe, GetLe, IntOf;
    SpanValues();
    LeRoundTrip(v, 4);
    FirstFour(PutLe(v, 4));
    NoBytes();
  }

  /** A 64-bit number is written as its low word and then its high word. */
  lemma LongWritten(v: uint64)
    ensures PutLe(v, 8) == PutLe(v % 0x1_0000_0000, 4) + PutLe(v / 0x1_0000_0000, 4)
  {
    hide PutLe, GetLe;
    var s := PutLe(v, 8);
    SpanValues();
    LeRoundTrip(v, 8);
    FirstFour(s);
    FirstFour(s[..4]);
    NoBytes();
    GetLeBound(s[..4]);
    RemainderUnique(v, 0x1_0000_0000, GetLe(s[4..]), GetLe(s[..4]));
    PutGetLe(s[..4]);
    PutGetLe(s[4..]);
    assert s == s[..4] + s[4..];
  }
}
