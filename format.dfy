/**
  Pure text renderers used by the listing engine: the `HEX` macro, the
  `%X`, `%d` and `%08X` conversions, field padding, the 32-bit truncation
  of offsets and the shapes of the placeholder tokens written into the
  byte run.
*/
module Format {

  type byte = x: int | 0 <= x < 0x100
  type i32 = x: int | -0x8000_0000 <= x < 0x8000_0000
  type i64 = x: int | -0x8000_0000_0000_0000 <= x < 0x8000_0000_0000_0000
  type u64 = x: int | 0 <= x < 0x1_0000_0000_0000_0000

  const TWO32: int := 0x1_0000_0000
  const TWO64: int := 0x1_0000_0000_0000_0000

  /** The longest token list_out is ever handed: `<zero ` + 16 digits + `>`. */
  const MAX_TOKEN: nat := 23

  /** The digit table `xdigit[]`. */
  const XDIGIT: string := "0123456789ABCDEF"

  /** Value of an upper-case hexadecimal (or decimal) digit, -1 for anything else. */
  function DigitValue(c: char): int
  {
    if '0' <= c <= '9' then c as int - '0' as int
    else if 'A' <= c <= 'F' then c as int - 'A' as int + 10
    else -1
  }

  /** `xdigit[v]`: the digit character for a value below 16. */
  function XDigit(v: int): (c: char)
    requires 0 <= v < 16
    ensures DigitValue(c) == v
  {
    assert XDIGIT == ['0', '1', '2', '3', '4', '5', '6', '7', '8', '9', 'A', 'B', 'C', 'D', 'E', 'F'];
    XDIGIT[v]
  }

  function Pow(b: nat, n: nat): (p: nat)
    ensures b > 0 ==> p > 0
  {
    if n == 0 then 1 else b * Pow(b, n - 1)
  }

  /** Value of a digit string in the given base, most significant digit first. */
  function Value(s: string, base: nat): int
  {
    if s == [] then 0 else Value(s[..|s| - 1], base) * base + DigitValue(s[|s| - 1])
  }

  predicate AllDigits(s: string, base: nat)
  {
    forall i :: 0 <= i < |s| ==> 0 <= DigitValue(s[i]) < base
  }

  /**
    The shortest numeral of `n` in `base` (the `%X` conversion for base 16,
    `%d` of a non-negative number for base 10): digits only, no leading zero,
    and it reads back as `n`.
  */
  function Numeral(n: nat, base: nat): (r: string)
    requires 2 <= base <= 16
    ensures 1 <= |r|
    ensures AllDigits(r, base)
    ensures |r| > 1 ==> r[0] != '0'
    ensures Value(r, base) == n
    decreases n
  {
    if n < base then [XDigit(n)]
    else
      var p := Numeral(n / base, base);
      AppendDigit(p, n, base);
      p + [XDigit(n % base)]
  }

  lemma QuotientPositive(n: nat, base: nat)
    requires 0 < base <= n
    ensures n / base >= 1
  {
    DivModParts(n, base);
  }

  /** Appending the digit of `n % base` to the numeral of `n / base` gives a numeral of `n`. */
  lemma AppendDigit(p: string, n: nat, base: nat)
    requires 2 <= base <= 16 && n >= base
    requires 1 <= |p| && AllDigits(p, base) && (|p| > 1 ==> p[0] != '0') && Value(p, base) == n / base
    ensures var r := p + [XDigit(n % base)];
      && AllDigits(r, base) && r[0] != '0' && Value(r, base) == n
  {
    var d := XDigit(n % base);
    var r := p + [d];
    assert r[..|r| - 1] == p && r[|r| - 1] == d;
    DivModParts(n, base);
    assert Value(r, base) == Value(p, base) * base + DigitValue(d);
    forall i | 0 <= i < |r|
      ensures 0 <= DigitValue(r[i]) < base
    {
      if i < |p| {
        assert r[i] == p[i];
      }
    }
    if |p| == 1 {
      QuotientPositive(n, base);
      assert p[..0] == [];
      assert Value(p, base) == DigitValue(p[0]);
    }
  }

  /** `%X` */
  function Hex(n: nat): string
  {
    Numeral(n, 16)
  }

  /** `%d` of a C integer, with a leading minus sign for a negative value and no leading zero. */
  function Decimal(n: int): (r: string)
    ensures |r| >= 1
    ensures n < 0 ==> |r| >= 2 && r[0] == '-' && AllDigits(r[1..], 10) && Value(r[1..], 10) == -n
    ensures n < 0 ==> (|r| > 2 ==> r[1] != '0')
    ensures n >= 0 ==> AllDigits(r, 10) && Value(r, 10) == n && (|r| > 1 ==> r[0] != '0')
  {
    if n < 0 then
      var d := Numeral(-n, 10);
      assert ("-" + d)[1..] == d;
      "-" + d
    else Numeral(n, 10)
  }

  /** `n` copies of `c`. */
  function Repeat(c: char, n: nat): (r: string)
    ensures |r| == n
    ensures forall i :: 0 <= i < n ==> r[i] == c
  {
    if n == 0 then [] else Repeat(c, n - 1) + [c]
  }

  function Max(a: int, b: int): int
  {
    if a < b then b else a
  }

  /** Right-justification in a field of width `w` (`%6d`, `%08X`). */
  function PadLeft(s: string, w: nat, c: char): (r: string)
    ensures |r| == Max(w, |s|)
    ensures r[|r| - |s|..] == s
    ensures forall i :: 0 <= i < |r| - |s| ==> r[i] == c
  {
    if |s| < w then Repeat(c, w - |s|) + s else s
  }

  /** Left-justification with spaces in a field of width `w` (`%-*s`). */
  function PadRight(s: string, w: nat): (r: string)
    ensures |r| == Max(w, |s|)
    ensures r[..|s|] == s
    ensures forall i :: |s| <= i < |r| ==> r[i] == ' '
  {
    if |s| < w then s + Repeat(' ', w - |s|) else s
  }

  /**
    `%08X`: at least eight digits, zero-filled on the left; a number that
    needs more than eight digits is printed without a leading zero.
  */
  function Hex8(n: nat): (r: string)
    ensures |r| >= 8 && AllDigits(r, 16)
    ensures Value(r, 16) == n
    ensures |r| > 8 ==> r[0] != '0'
  {
    var h := Hex(n);
    ZeroFillValue(h, 8 - |h|);
    var r := PadLeft(h, 8, '0');
    assert r == Repeat('0', if 8 - |h| < 0 then 0 else 8 - |h|) + h;
    r
  }

  /** The `HEX` macro applied to one byte: high nibble first. */
  function HexByte(b: byte): (r: string)
    ensures |r| == 2 && AllDigits(r, 16)
    ensures Value(r, 16) == b
  {
    var r := [XDigit(b / 16), XDigit(b % 16)];
    assert r[..1] == [r[0]] && r[..1][..0] == [];
    assert Value(r[..1], 16) == b / 16;
    DivModParts(b, 16);
    r
  }

  /** The run text of a sequence of bytes: their `HEX` tokens, concatenated. */
  function HexBytes(bs: seq<byte>): string
  {
    if bs == [] then "" else HexByte(bs[0]) + HexBytes(bs[1..])
  }

  /**
    The digits list_address writes for an address of `size` bytes: one `HEX`
    pair per byte, least significant byte first, shifting right by eight
    bits (an arithmetic shift, which is floor division by 256) each time.
  */
  function AddressDigits(addr: int, size: nat): (r: string)
    ensures |r| == 2 * size && AllDigits(r, 16)
    decreases size
  {
    if size == 0 then ""
    else
      DigitsConcat(HexByte(addr % 256), AddressDigits(addr / 256, size - 1));
      HexByte(addr % 256) + AddressDigits(addr / 256, size - 1)
  }

  lemma DigitsConcat(a: string, b: string)
    requires AllDigits(a, 16) && AllDigits(b, 16)
    ensures AllDigits(a + b, 16)
  {
    forall i | 0 <= i < |a + b|
      ensures 0 <= DigitValue((a + b)[i]) < 16
    {
      if i >= |a| {
        assert (a + b)[i] == b[i - |a|];
      }
    }
  }

  /** Reads a string of hex pairs back as a little-endian number. */
  function LittleEndianValue(s: string): int
    decreases |s|
  {
    if |s| < 2 then 0 else Value(s[..2], 16) + 256 * LittleEndianValue(s[2..])
  }

  /**
    Conversion of a 64-bit offset to the `int32_t` listoffset: the low 32
    bits, read as a two's complement number.
  */
  function Trunc32(x: int): (r: i32)
    ensures (x - r) % TWO32 == 0
  {
    var m := x % TWO32;
    if m < 0x8000_0000 then m else m - TWO32
  }

  /** `<zero %08X>` (list_output, zero-fill of more than 16 bytes). */
  function ZeroToken(size: u64): (r: string)
    ensures |r| <= MAX_TOKEN && |r| >= 15
    ensures r[..6] == "<zero " && r[|r| - 1] == '>'
    ensures AllDigits(r[6..|r| - 1], 16) && Value(r[6..|r| - 1], 16) == size
    ensures |r| > 15 ==> r[6] != '0'
  {
    Pow16();
    NumeralLength(size, 16, 16);
    var r := "<zero " + Hex8(size) + ">";
    Bracketed(r, "<zero ", Hex8(size));
    r
  }

  /** `<res %X>` (list_output, a reservation). */
  function ReserveToken(size: u64): (r: string)
    ensures 7 <= |r| <= MAX_TOKEN
    ensures r[..5] == "<res " && r[|r| - 1] == '>'
    ensures AllDigits(r[5..|r| - 1], 16) && Value(r[5..|r| - 1], 16) == size
    ensures |r| > 7 ==> r[5] != '0'
  {
    TaggedToken("<res ", size)
  }

  /**
    `<bin %X>` (list_uplevel, LIST_INCBIN): the int64 size printed with an
    unsigned 64-bit conversion.
  */
  function BinToken(size: i64): (r: string)
    ensures 7 <= |r| <= MAX_TOKEN
    ensures r[..5] == "<bin " && r[|r| - 1] == '>'
    ensures AllDigits(r[5..|r| - 1], 16) && Value(r[5..|r| - 1], 16) == size % TWO64
    ensures |r| > 7 ==> r[5] != '0'
  {
    TaggedToken("<bin ", size % TWO64)
  }

  /** `<rep %X>` (list_uplevel, LIST_TIMES). */
  function RepToken(size: i64): (r: string)
    ensures 7 <= |r| <= MAX_TOKEN
    ensures r[..5] == "<rep " && r[|r| - 1] == '>'
    ensures AllDigits(r[5..|r| - 1], 16) && Value(r[5..|r| - 1], 16) == size % TWO64
    ensures |r| > 7 ==> r[5] != '0'
  {
    TaggedToken("<rep ", size % TWO64)
  }

  function TaggedToken(tag: string, n: u64): (r: string)
    requires |tag| == 5
    ensures 7 <= |r| <= MAX_TOKEN
    ensures r[..5] == tag && r[|r| - 1] == '>'
    ensures AllDigits(r[5..|r| - 1], 16) && Value(r[5..|r| - 1], 16) == n
    ensures |r| > 7 ==> r[5] != '0'
  {
    Pow16();
    NumeralLength(n, 16, 16);
    var r := tag + Hex(n) + ">";
    Bracketed(r, tag, Hex(n));
    r
  }

  /** A tag, its digits and a closing `>`. */
  lemma Bracketed(r: string, tag: string, d: string)
    requires r == tag + d + ">" && d != []
    ensures |r| == |tag| + |d| + 1 && r[..|tag|] == tag && r[|r| - 1] == '>'
    ensures r[|tag|..|r| - 1] == d && r[|tag|] == d[0]
  {
    assert r[|tag|..|r| - 1] == d;
  }

  /** `[` + 2·size `s` characters + `]` (list_output, OUT_SEGMENT). */
  function SegmentToken(size: nat): (r: string)
    requires size <= 10
    ensures |r| == 2 * size + 2 && |r| <= MAX_TOKEN
    ensures r[0] == '[' && r[|r| - 1] == ']'
    ensures forall i :: 1 <= i < |r| - 1 ==> r[i] == 's'
  {
    "[" + Repeat('s', 2 * size) + "]"
  }

  /**
    list_address: the brackets around the address digits (`[]` for
    OUT_ADDRESS, `()` for OUT_RELADDR).
  */
  function AddressToken(open: char, close: char, addr: int, size: nat): (r: string)
    requires size <= 8
    ensures |r| == 2 * size + 2 && |r| <= MAX_TOKEN
    ensures r[0] == open && r[|r| - 1] == close
    ensures AllDigits(r[1..|r| - 1], 16)
    ensures LittleEndianValue(r[1..|r| - 1]) == addr % Pow(256, size)
  {
    var r := [open] + AddressDigits(addr, size) + [close];
    assert r[1..|r| - 1] == AddressDigits(addr, size);
    AddressRoundTrip(addr, size);
    r
  }

  // ---------------------------------------------------------------------
  // Lemmas about the renderers

  /** Leading zeros do not change a numeral's value. */
  lemma {:induction false} ZeroFillValue(s: string, k: int)
    ensures Value(Repeat('0', if k < 0 then 0 else k) + s, 16) == Value(s, 16)
    decreases |s|
  {
    var z := Repeat('0', if k < 0 then 0 else k);
    if s == [] {
      assert z + s == z;
      AllZeros(z);
    } else {
      var t := z + s;
      assert t[..|t| - 1] == z + s[..|s| - 1];
      ZeroFillValue(s[..|s| - 1], k);
    }
  }

  lemma {:induction false} AllZeros(z: string)
    requires forall i :: 0 <= i < |z| ==> z[i] == '0'
    ensures Value(z, 16) == 0
    decreases |z|
  {
    if z != [] {
      AllZeros(z[..|z| - 1]);
    }
  }

  /** A number below base^k has at most k digits. */
  lemma {:induction false} NumeralLength(n: nat, base: nat, k: nat)
    requires 2 <= base <= 16 && 1 <= k && n < Pow(base, k)
    ensures |Numeral(n, base)| <= k
    decreases k
  {
    if n >= base {
      assert Pow(base, 1) == base;
      assert n / base < Pow(base, k - 1) by {
        DivBound(n, base, Pow(base, k - 1));
      }
      NumeralLength(n / base, base, k - 1);
    }
  }

  lemma DivModParts(n: nat, base: nat)
    requires base > 0
    ensures (n / base) * base + n % base == n
  {
  }

  lemma DivBound(n: nat, b: nat, p: nat)
    requires b > 0 && n < b * p
    ensures n / b < p
  {
  }

  /** The digits of an address read back, little-endian, as its low `size` bytes. */
  lemma {:induction false} AddressRoundTrip(addr: int, size: nat)
    ensures LittleEndianValue(AddressDigits(addr, size)) == addr % Pow(256, size)
    decreases size
  {
    if size > 0 {
      var p := Pow(256, size - 1);
      var rest := AddressDigits(addr / 256, size - 1);
      LittleEndianCons(HexByte(addr % 256), rest);
      AddressRoundTrip(addr / 256, size - 1);
      ModSplit(addr, p);
      assert Pow(256, size) == 256 * p;
    } else {
      assert addr % 1 == 0;
    }
  }

  /** A hex pair in front adds its value to 256 times the value of the rest. */
  lemma LittleEndianCons(h: string, rest: string)
    requires |h| == 2
    ensures LittleEndianValue(h + rest) == Value(h, 16) + 256 * LittleEndianValue(rest)
  {
    assert (h + rest)[..2] == h && (h + rest)[2..] == rest;
  }

  /** `a mod 256·p` splits into the low byte and the rest. */
  lemma ModSplit(a: int, p: nat)
    requires p > 0
    ensures a % (256 * p) == a % 256 + 256 * ((a / 256) % p)
  {
    var q, r := a / 256, a % 256;
    var q2, r2 := q / p, q % p;
    assert a == 256 * q + r;
    assert q == p * q2 + r2;
    assert a == (256 * p) * q2 + (256 * r2 + r) by {
      assert 256 * q == 256 * (p * q2) + 256 * r2;
    }
    assert 0 <= 256 * r2 + r < 256 * p;
    ModUnique(a, 256 * p, q2, 256 * r2 + r);
  }

  lemma ModUnique(a: int, m: int, k: int, t: int)
    requires m > 0 && 0 <= t < m && a == m * k + t
    ensures a % m == t
  {
    var d, e := a / m, a % m;
    assert a == m * d + e && 0 <= e < m;
    Distribute(m, k, d - k);
    if d > k {
      MulAtLeast(m, d - k);
    } else if d < k {
      MulAtLeast(m, k - d);
    }
  }

  lemma Distribute(m: int, k: int, x: int)
    ensures m * (k + x) == m * k + m * x
    ensures m * (k - x) == m * k - m * x
  {
  }

  lemma MulAtLeast(m: int, x: int)
    requires m > 0 && x >= 1
    ensures m * x >= m
  {
  }

  lemma Pow16()
    ensures Pow(16, 16) == TWO64
  {
    assert Pow(16, 1) == 0x10;
    assert Pow(16, 2) == 0x100;
    assert Pow(16, 3) == 0x1000;
    assert Pow(16, 4) == 0x10000;
    assert Pow(16, 5) == 0x100000;
    assert Pow(16, 6) == 0x1000000;
    assert Pow(16, 7) == 0x10000000;
    assert Pow(16, 8) == 0x100000000;
    assert Pow(16, 9) == 0x1000000000;
    assert Pow(16, 10) == 0x10000000000;
    assert Pow(16, 11) == 0x100000000000;
    assert Pow(16, 12) == 0x1000000000000;
    assert Pow(16, 13) == 0x10000000000000;
    assert Pow(16, 14) == 0x100000000000000;
    assert Pow(16, 15) == 0x1000000000000000;
    assert Pow(16, 16) == 0x10000000000000000;
  }
}
