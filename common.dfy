/// The pieces of the C runtime the toolchain leans on: the `ctype.h` classes it
/// tests characters with, glibc's `atoi`, and the `printf` conversions `%d`,
/// `%u` and `%0Nb` whose text ends up in the generated files.
module CLib {

  datatype Option<T> = None | Some(value: T)

  datatype Result<T> = Ok(value: T) | Err(msg: string)

  /// A C `unsigned`.
  type u32 = x: int | 0 <= x < 0x1_0000_0000

  const INT_MIN: int := -0x8000_0000
  const INT_MAX: int := 0x7fff_ffff
  const LONG_MIN: int := -0x8000_0000_0000_0000
  const LONG_MAX: int := 0x7fff_ffff_ffff_ffff

  /// `isspace` in the C locale.
  predicate IsSpace(c: char) {
    c == ' ' || c == '\t' || c == '\n' || c == '\r' || c == '\U{000B}' || c == '\U{000C}'
  }

  predicate IsDigit(c: char) { '0' <= c <= '9' }

  predicate IsAlpha(c: char) { ('a' <= c <= 'z') || ('A' <= c <= 'Z') }

  predicate AllDigits(s: string) { forall i :: 0 <= i < |s| ==> IsDigit(s[i]) }

  /// The text up to (not including) the first NUL: what `strlen` and `strcmp` see.
  function CString(s: string): (r: string)
    ensures r <= s && '\0' !in r
    ensures |r| < |s| ==> s[|r|] == '\0'
  {
    if s == [] then [] else if s[0] == '\0' then [] else [s[0]] + CString(s[1..])
  }

  function DigitValue(c: char): nat requires IsDigit(c) { c as int - '0' as int }

  /// The longest prefix of `s` made of decimal digits.
  function DigitPrefix(s: string): (d: string)
    ensures d <= s && AllDigits(d)
    ensures |d| < |s| ==> !IsDigit(s[|d|])
  {
    if s != [] && IsDigit(s[0]) then [s[0]] + DigitPrefix(s[1..]) else []
  }

  /// The value of a string of decimal digits, most significant first.
  function DecimalValue(d: string): nat
    requires AllDigits(d)
  {
    if d == [] then 0 else 10 * DecimalValue(d[..|d| - 1]) + DigitValue(d[|d| - 1])
  }

  function SkipSpace(s: string): (r: string)
    ensures |r| <= |s| && r == s[|s| - |r|..]
    ensures r == [] || !IsSpace(r[0])
  {
    if s != [] && IsSpace(s[0]) then SkipSpace(s[1..]) else s
  }

  /// The number `strtol(s, NULL, 10)` reads, before saturation: leading
  /// white space, an optional sign, and the longest digit run after it.
  function StrtolRead(s: string): int
  {
    var t := SkipSpace(s);
    var u := if t != [] && (t[0] == '-' || t[0] == '+') then t[1..] else t;
    var v: int := DecimalValue(DigitPrefix(u));
    if t != [] && t[0] == '-' then -v else v
  }

  /// glibc's `strtol(s, NULL, 10)`: the number read, saturated to the range
  /// of a 64-bit `long`.
  function Strtol(s: string): (r: int)
    ensures LONG_MIN <= r <= LONG_MAX
  {
    var v := StrtolRead(s);
    if v < LONG_MIN then LONG_MIN else if v > LONG_MAX then LONG_MAX else v
  }

  /// Whether `strtol(s, NULL, 10)` sets `errno` to `ERANGE`: the number it
  /// read lies outside the range of a `long`.
  predicate StrtolOverflows(s: string)
  {
    !(LONG_MIN <= StrtolRead(s) <= LONG_MAX)
  }

  /// On overflow `strtol` saturates towards the sign of the number read,
  /// and `atoi` turns the saturated `long` into -1 or 0; otherwise `strtol`
  /// gives the number read.
  lemma StrtolRange(s: string)
    ensures StrtolOverflows(s) ==> Strtol(s) == (if StrtolRead(s) < 0 then LONG_MIN else LONG_MAX)
    ensures StrtolOverflows(s) ==> Atoi(s) == (if StrtolRead(s) < 0 then 0 else -1)
    ensures !StrtolOverflows(s) ==> Strtol(s) == StrtolRead(s)
  {
    assert Atoi(s) == WrapInt(Strtol(s));
    assert WrapInt(LONG_MAX) == -1;
    assert WrapInt(LONG_MIN) == 0;
  }

  /// The conversion of a `long` to a 32-bit `int` (two's complement wrap-around).
  function WrapInt(x: int): (r: int)
    ensures INT_MIN <= r <= INT_MAX
    ensures INT_MIN <= x <= INT_MAX ==> r == x
    ensures (r - x) % 0x1_0000_0000 == 0
  {
    (x - INT_MIN) % 0x1_0000_0000 + INT_MIN
  }

  /// glibc's `atoi`, which is `(int) strtol(s, NULL, 10)`.
  function Atoi(s: string): (r: int)
    ensures INT_MIN <= r <= INT_MAX
    ensures s != [] && AllDigits(s) && DecimalValue(s) <= INT_MAX ==> r == DecimalValue(s)
  {
    if s != [] && AllDigits(s) && DecimalValue(s) <= INT_MAX then
      StrtolDigits(s);
      WrapInt(Strtol(s))
    else WrapInt(Strtol(s))
  }

  /// `strtol` of a digit string is its decimal value, saturated.
  lemma StrtolDigits(s: string)
    requires s != [] && AllDigits(s)
    ensures Strtol(s) == if DecimalValue(s) > LONG_MAX then LONG_MAX else DecimalValue(s)
  {
    assert IsDigit(s[0]);
    assert SkipSpace(s) == s;
    DigitsOwnPrefix(s);
  }

  lemma {:induction false} DigitsOwnPrefix(s: string)
    requires AllDigits(s)
    ensures DigitPrefix(s) == s
  {
    if s != [] { DigitsOwnPrefix(s[1..]); }
  }

  /// The conversion of an `int` to `unsigned`.
  function ToUnsigned(x: int): (r: u32)
    ensures 0 <= x ==> x < 0x1_0000_0000 ==> r == x
  {
    x % 0x1_0000_0000
  }

  function DigitChar(d: nat): (c: char)
    requires d < 10
    ensures IsDigit(c) && DigitValue(c) == d
  {
    ('0' as int + d) as char
  }

  /// `printf("%u")` / `printf("%zu")`: the decimal digits of `n`.
  function NatStr(n: nat): (r: string)
    ensures r != [] && AllDigits(r)
    ensures DecimalValue(r) == n
    ensures |r| > 1 ==> r[0] != '0'
  {
    if n < 10 then [DigitChar(n)]
    else
      var r := NatStr(n / 10) + [DigitChar(n % 10)];
      assert r[..|r| - 1] == NatStr(n / 10);
      r
  }

  /// `printf("%d")`.
  function IntStr(i: int): (r: string)
    ensures r != []
    ensures i >= 0 ==> r == NatStr(i)
    ensures i < 0 ==> r == "-" + NatStr(-i)
  {
    if i < 0 then "-" + NatStr(-i) else NatStr(i)
  }

  /// `atoi` reads back what `%d` printed, for every 32-bit value.
  lemma {:induction false} AtoiIntStr(i: int)
    requires INT_MIN <= i <= INT_MAX
    ensures Atoi(IntStr(i)) == i
  {
    var s := IntStr(i);
    if i >= 0 {
      assert Atoi(s) == DecimalValue(s);
    } else {
      var d := NatStr(-i);
      DigitsOwnPrefix(d);
      assert SkipSpace(s) == s;
      assert s[1..] == d;
      assert Strtol(s) == i;
    }
  }

  function Pow2(n: nat): (r: nat)
    ensures r >= 1
  {
    if n == 0 then 1 else 2 * Pow2(n - 1)
  }

  function BitChar(b: int): char requires 0 <= b < 2 { if b == 1 then '1' else '0' }

  /// The low `w` bits of `n` in two's complement, most significant first: what
  /// `addrToStr` in 6/hackasm.c writes, and `%0wb` for a value below 2^w.
  function Bits(n: int, w: nat): (r: string)
    ensures |r| == w
    ensures forall i :: 0 <= i < |r| ==> r[i] == '0' || r[i] == '1'
    decreases w
  {
    if w == 0 then [] else Bits(n / 2, w - 1) + [BitChar(n % 2)]
  }

  /// The value of a string of '0'/'1' characters, most significant first.
  function BinValue(s: string): nat
  {
    if s == [] then 0 else 2 * BinValue(s[..|s| - 1]) + (if s[|s| - 1] == '1' then 1 else 0)
  }

  lemma HalfMod(n: int, p: nat)
    requires p >= 1
    ensures 2 * ((n / 2) % p) + n % 2 == n % (2 * p)
  {
    var q := n / 2;
    var b := n % 2;
    var q2 := q / p;
    var r2 := q % p;
    assert n == 2 * q + b;
    assert q == q2 * p + r2;
    assert n == q2 * (2 * p) + (2 * r2 + b);
    assert 0 <= 2 * r2 + b < 2 * p;
    ModUnique(n, 2 * p, q2, 2 * r2 + b);
  }

  lemma ModUnique(a: int, d: nat, q: int, r: int)
    requires d >= 1 && a == q * d + r && 0 <= r < d
    ensures a % d == r && a / d == q
  {
    var q0, r0 := a / d, a % d;
    assert a == q0 * d + r0;
    assert (q0 - q) * d == r - r0 by {
      assert q0 * d - q * d == (q0 - q) * d;
    }
    if q0 > q {
      MulAtLeast(q0 - q, d);
    } else if q0 < q {
      MulAtLeast(q - q0, d);
    }
  }

  lemma MulAtLeast(k: int, d: int)
    requires k >= 1 && d >= 0
    ensures k * d >= d
  {
    assert k * d == (k - 1) * d + d;
  }

  /// The bit string denotes exactly the value `n` modulo 2^w.
  lemma {:induction false} BinValueBits(n: int, w: nat)
    ensures BinValue(Bits(n, w)) == n % Pow2(w)
    decreases w
  {
    if w > 0 {
      var r := Bits(n, w);
      assert r[..|r| - 1] == Bits(n / 2, w - 1);
      BinValueBits(n / 2, w - 1);
      HalfMod(n, Pow2(w - 1));
    }
  }

  /// The shortest binary numeral of `n` ("0" for zero), as glibc's `%b` prints it.
  function Binary(n: nat): (r: string)
    ensures r != []
    ensures forall i :: 0 <= i < |r| ==> r[i] == '0' || r[i] == '1'
  {
    if n < 2 then [BitChar(n)] else Binary(n / 2) + [BitChar(n % 2)]
  }

  function Zeros(k: nat): (r: string)
    ensures |r| == k && forall i :: 0 <= i < k ==> r[i] == '0'
  {
    if k == 0 then [] else Zeros(k - 1) + ['0']
  }

  /// `printf("%0wb", n)`: the binary numeral of `n`, left-padded with zeros to
  /// at least `w` characters (a value needing more digits is printed in full).
  function PadBin(n: nat, w: nat): (r: string)
    ensures |r| >= w
    ensures forall i :: 0 <= i < |r| ==> r[i] == '0' || r[i] == '1'
  {
    var b := Binary(n);
    (if |b| < w then Zeros(w - |b|) else []) + b
  }

  lemma {:induction false} BinaryLength(n: nat, w: nat)
    requires 1 <= w && n < Pow2(w)
    ensures |Binary(n)| <= w
  {
    if n >= 2 { BinaryLength(n / 2, w - 1); }
  }

  /// For a value that fits in `w` bits, `%0wb` prints exactly its `w` low bits.
  lemma {:induction false} PadBinIsBits(n: nat, w: nat)
    requires 1 <= w && n < Pow2(w)
    ensures PadBin(n, w) == Bits(n, w)
  {
    BinaryLength(n, w);
    if n < 2 {
      ZerosAreBits(w - 1);
      assert Bits(n, w) == Bits(0, w - 1) + [BitChar(n)];
    } else {
      PadBinIsBits(n / 2, w - 1);
      BinaryLength(n / 2, w - 1);
      var b := Binary(n / 2);
      assert Binary(n) == b + [BitChar(n % 2)];
      if |b| < w - 1 {
        assert Zeros(w - |Binary(n)|) == Zeros(w - 1 - |b|);
        assert PadBin(n, w) == (Zeros(w - 1 - |b|) + b) + [BitChar(n % 2)];
      } else {
        assert PadBin(n, w) == b + [BitChar(n % 2)];
      }
    }
  }

  lemma {:induction false} ZerosAreBits(k: nat)
    ensures Bits(0, k) == Zeros(k)
  {
    if k > 0 { ZerosAreBits(k - 1); }
  }

  lemma Pow2Values()
    ensures Pow2(3) == 8 && Pow2(7) == 128 && Pow2(15) == 32768
  {
    assert Pow2(1) == 2;
    assert Pow2(2) == 4;
    assert Pow2(3) == 8;
    assert Pow2(4) == 16;
    assert Pow2(5) == 32;
    assert Pow2(6) == 64;
    assert Pow2(7) == 128;
    assert Pow2(8) == 256;
    assert Pow2(9) == 512;
    assert Pow2(10) == 1024;
    assert Pow2(11) == 2048;
    assert Pow2(12) == 4096;
    assert Pow2(13) == 8192;
    assert Pow2(14) == 16384;
  }

  lemma {:induction false} BinValueZero(b: string)
    ensures BinValue("0" + b) == BinValue(b)
    decreases |b|
  {
    if b != [] {
      var s := "0" + b;
      assert s[..|s| - 1] == "0" + b[..|b| - 1];
      BinValueZero(b[..|b| - 1]);
    }
  }

  /// The C string of `p + q`, when `p` holds no NUL, starts with `p`.
  lemma {:induction false} CStringPrefix(p: string, q: string)
    requires '\0' !in p
    ensures CString(p + q) == p + CString(q)
  {
    if p != [] {
      var c, p' := p[0], p[1..];
      assert p == [c] + p';
      assert c != '\0' && '\0' !in p' by { assert c in p && forall x | x in p' :: x in p; }
      assert p + q == [c] + (p' + q);
      CStringPrefix(p', q);
      assert CString([c] + (p' + q)) == [c] + CString(p' + q) by { assert ([c] + (p' + q))[1..] == p' + q; }
    } else {
      assert p + q == q;
    }
  }

  /// A text without NUL is its own C string.
  lemma CStringWhole(s: string)
    requires '\0' !in s
    ensures CString(s) == s
  {
    CStringPrefix(s, "");
    assert s + "" == s;
  }
}
