/**
  Character-level helpers shared by the frame codec and the message logger:
  the numerals `String.format("%0Nd")`, `"%04x"` and `StringBuilder.append(Int)`
  produce, `String.toLong()` (that is, `java.lang.Long.parseLong`), and the
  US-ASCII charset in both directions.
*/
module Text {
  import opened Wrappers

  /** One octet of a Netty `ByteBuf`. */
  type Byte = b: int | 0 <= b < 256

  const LONG_MIN: int := -0x8000_0000_0000_0000
  const LONG_MAX: int := 0x7FFF_FFFF_FFFF_FFFF

  /** Java's `NumberFormatException`, carrying the rejected input. */
  datatype NumberFormatException = NumberFormatException(input: string)

  predicate IsDigit(c: char) {
    '0' <= c <= '9'
  }

  predicate IsSign(c: char) {
    c == '+' || c == '-'
  }

  predicate AllDigits(s: string) {
    forall i :: 0 <= i < |s| ==> IsDigit(s[i])
  }

  function Pow(base: nat, k: nat): (r: nat)
    ensures 0 < base ==> 0 < r
  {
    if k == 0 then 1 else base * Pow(base, k - 1)
  }

  /** A digit as `Formatter` writes them in any base up to 16: `0`-`9`, then lower-case `a`-`f`. */
  predicate IsHexDigit(c: char) {
    '0' <= c <= '9' || 'a' <= c <= 'f'
  }

  predicate AllHexDigits(s: string) {
    forall i :: 0 <= i < |s| ==> IsHexDigit(s[i])
  }

  /** The value of one such digit. */
  function HexDigitValue(c: char): (d: nat)
    requires IsHexDigit(c)
    ensures d < 16
    ensures IsDigit(c) <==> d < 10
  {
    if c <= '9' then c as int - '0' as int else c as int - 'a' as int + 10
  }

  /** The character for digit `d` as `Formatter` writes it: lower-case for hexadecimal. */
  function DigitChar(d: nat): (c: char)
    requires d < 16
    ensures d < 10 ==> IsDigit(c) && c as int - '0' as int == d
    ensures IsHexDigit(c) && HexDigitValue(c) == d
  {
    if d < 10 then ('0' as int + d) as char else ('a' as int + d - 10) as char
  }

  /** The shortest numeral of `n` in `base`: no leading zero, "0" for zero. */
  function Numeral(n: nat, base: nat): (s: string)
    requires 2 <= base <= 16
    ensures 1 <= |s|
    ensures base == 10 ==> AllDigits(s)
    ensures |s| == 1 <==> n < base
  {
    if n < base then [DigitChar(n)]
    else
      DivStep(n, base);
      Numeral(n / base, base) + [DigitChar(n % base)]
  }

  /** Division by a base of at least two strictly shrinks a number that is not below the base. */
  lemma DivStep(n: nat, b: nat)
    requires 2 <= b <= n
    ensures 0 < n / b < n && n % b < b
  {
    var q, r := n / b, n % b;
    assert n == b * q + r && 0 <= r < b;
    assert q >= 1;
    assert b * q >= 2 * q by {
      MulMonotone(2, b, q);
    }
  }

  lemma MulMonotone(a: nat, b: nat, q: nat)
    requires a <= b
    ensures a * q <= b * q
  {
  }

  /** `k` zero characters. */
  function Zeros(k: nat): (s: string)
    ensures |s| == k && AllDigits(s)
  {
    if k == 0 then [] else Zeros(k - 1) + ['0']
  }

  /**
    `String.format("%0" + width + "d", n)` and, in base 16, `"%0" + width + "x"`:
    the numeral left-padded with zeros to at least `width` characters. The width is
    a minimum, never a maximum.
  */
  function ZeroPadded(n: nat, base: nat, width: nat): (s: string)
    requires 2 <= base <= 16
    ensures |s| == if |Numeral(n, base)| >= width then |Numeral(n, base)| else width
    ensures base == 10 ==> AllDigits(s)
  {
    var d := Numeral(n, base);
    if |d| >= width then d else Zeros(width - |d|) + d
  }

  /** `Integer.toString(n)` (what `StringBuilder.append(Int)` writes). */
  function DecimalString(n: int): string {
    if n < 0 then "-" + Numeral(-n, 10) else Numeral(n, 10)
  }

  /** The value of a string of decimal digits, most significant first. */
  function DigitsValue(s: string): nat
    requires AllDigits(s)
  {
    if |s| == 0 then 0 else DigitsValue(s[..|s| - 1]) * 10 + (s[|s| - 1] as int - '0' as int)
  }

  /** The value of a numeral in `base`, most significant digit first. */
  function DigitsValueIn(s: string, base: nat): nat
    requires AllHexDigits(s)
  {
    if |s| == 0 then 0 else DigitsValueIn(s[..|s| - 1], base) * base + HexDigitValue(s[|s| - 1])
  }

  /**
    `s` is an optional sign followed by decimal digits whose signed value is `v`
    (the digits may run past the 64-bit range).
  */
  predicate Denotes(s: string, v: int) {
    && 0 < |s|
    && var digits := if IsSign(s[0]) then s[1..] else s;
    && AllDigits(digits)
    && v == if s[0] == '-' then -(DigitsValue(digits) as int) else DigitsValue(digits)
  }

  /**
    `java.lang.Long.parseLong(s)` on text that came out of the US-ASCII decoder:
    an optional leading sign, then at least one digit, and a value that fits a
    signed 64-bit long; anything else throws.
  */
  function ParseLong(s: string): (r: Result<int, NumberFormatException>)
    ensures r.Success? ==> 0 < |s| && forall i :: 0 <= i < |s| ==> IsDigit(s[i]) || (i == 0 && IsSign(s[i]))
    ensures r.Success? ==> LONG_MIN <= r.value <= LONG_MAX
    ensures r.Failure? ==> r.error == NumberFormatException(s)
    ensures 0 < |s| && AllDigits(s) && DigitsValue(s) <= LONG_MAX ==> r == Success(DigitsValue(s))
    ensures 1 < |s| && s[0] == '-' && AllDigits(s[1..]) && DigitsValue(s[1..]) <= -LONG_MIN
            ==> r == Success(-(DigitsValue(s[1..]) as int))
    ensures 1 < |s| && s[0] == '+' && AllDigits(s[1..]) && DigitsValue(s[1..]) <= LONG_MAX
            ==> r == Success(DigitsValue(s[1..]))
    ensures r.Success? ==> Denotes(s, r.value)
  {
    if |s| == 0 then Failure(NumberFormatException(s))
    else
      var digits := if IsSign(s[0]) then s[1..] else s;
      if |digits| == 0 || !AllDigits(digits) then Failure(NumberFormatException(s))
      else
        var v: int := if s[0] == '-' then -(DigitsValue(digits) as int) else DigitsValue(digits);
        if v < LONG_MIN || v > LONG_MAX then Failure(NumberFormatException(s)) else Success(v)
  }

  /** A numeral outside the signed 64-bit range is rejected, whatever its sign. */
  lemma ParseLongOverflow(s: string, v: int)
    requires Denotes(s, v) && (v < LONG_MIN || LONG_MAX < v)
    ensures ParseLong(s) == Failure(NumberFormatException(s))
  {
  }

  /** `new String(bytes, US_ASCII)`: bytes above 0x7F decode to U+FFFD. */
  function AsciiDecode(bytes: seq<Byte>): (s: string)
    ensures |s| == |bytes|
    ensures forall i :: 0 <= i < |bytes| && bytes[i] < 0x80 ==> s[i] as int == bytes[i]
    ensures forall i :: 0 <= i < |bytes| && bytes[i] >= 0x80 ==> s[i] == '\U{FFFD}'
  {
    if |bytes| == 0 then []
    else AsciiDecode(bytes[..|bytes| - 1]) + [if bytes[|bytes| - 1] < 0x80 then bytes[|bytes| - 1] as char else '\U{FFFD}']
  }

  /** `s.toByteArray(US_ASCII)`: characters above 0x7F encode as '?'. */
  function AsciiEncode(s: string): (bytes: seq<Byte>)
    ensures |bytes| == |s|
    ensures forall i :: 0 <= i < |s| ==> bytes[i] < 0x80
    ensures forall i :: 0 <= i < |s| && (s[i] as int) < 0x80 ==> bytes[i] == s[i] as int
    ensures forall i :: 0 <= i < |s| && (s[i] as int) >= 0x80 ==> bytes[i] == '?' as int
  {
    if |s| == 0 then []
    else AsciiEncode(s[..|s| - 1]) + [if (s[|s| - 1] as int) < 0x80 then s[|s| - 1] as int else '?' as int]
  }

  // ---------------------------------------------------------------------------
  // Properties of numerals

  /** Appending one digit multiplies the value so far by ten and adds the digit. */
  lemma DigitsValueSnoc(s: string, c: char)
    requires AllDigits(s) && IsDigit(c)
    ensures AllDigits(s + [c])
    ensures DigitsValue(s + [c]) == DigitsValue(s) * 10 + (c as int - '0' as int)
  {
    assert (s + [c])[..|s|] == s;
  }

  /** The decimal numeral reads back as the number it was written from. */
  lemma {:induction false} NumeralValue(n: nat)
    ensures DigitsValue(Numeral(n, 10)) == n
  {
    if n < 10 {
      assert Numeral(n, 10) == [] + [DigitChar(n)];
      DigitsValueSnoc([], DigitChar(n));
    } else {
      NumeralValue(n / 10);
      DigitsValueSnoc(Numeral(n / 10, 10), DigitChar(n % 10));
    }
  }

  /** Value of a concatenation: the prefix is shifted left by the suffix's length. */
  lemma {:induction false} DigitsValueAppend(a: string, b: string)
    requires AllDigits(a) && AllDigits(b)
    ensures AllDigits(a + b)
    ensures DigitsValue(a + b) == DigitsValue(a) * Pow(10, |b|) + DigitsValue(b)
  {
    if |b| == 0 {
      assert a + b == a;
    } else {
      var b' := b[..|b| - 1];
      var c := b[|b| - 1];
      assert b == b' + [c];
      assert a + b == (a + b') + [c];
      DigitsValueAppend(a, b');
      DigitsValueSnoc(a + b', c);
      DigitsValueSnoc(b', c);
      ShiftStep(DigitsValue(a), DigitsValue(b'), c as int - '0' as int, Pow(10, |b'|));
    }
  }

  lemma ShiftStep(va: int, vb: int, d: int, p: int)
    ensures (va * p + vb) * 10 + d == va * (10 * p) + (vb * 10 + d)
  {
  }

  lemma {:induction false} ZerosValue(k: nat)
    ensures DigitsValue(Zeros(k)) == 0
  {
    if k > 0 {
      ZerosValue(k - 1);
      DigitsValueSnoc(Zeros(k - 1), '0');
    }
  }

  /** Zero padding on the left never changes the value of a numeral. */
  lemma LeadingZerosValue(k: nat, s: string)
    requires AllDigits(s)
    ensures AllDigits(Zeros(k) + s)
    ensures DigitsValue(Zeros(k) + s) == DigitsValue(s)
  {
    DigitsValueAppend(Zeros(k), s);
    ZerosValue(k);
  }

  /** A zero-padded decimal numeral reads back as its number, whatever the width. */
  lemma ZeroPaddedValue(n: nat, width: nat)
    ensures AllDigits(ZeroPadded(n, 10, width))
    ensures DigitsValue(ZeroPadded(n, 10, width)) == n
  {
    var d := Numeral(n, 10);
    NumeralValue(n);
    if |d| < width {
      LeadingZerosValue(width - |d|, d);
    }
  }

  /** The numeral of `n` in any base from 2 to 16 reads back as `n` in that base. */
  lemma {:induction false} NumeralValueIn(n: nat, base: nat)
    requires 2 <= base <= 16
    ensures AllHexDigits(Numeral(n, base))
    ensures DigitsValueIn(Numeral(n, base), base) == n
  {
    var s := Numeral(n, base);
    if n < base {
      assert s[..0] == [];
    } else {
      DivStep(n, base);
      var q := Numeral(n / base, base);
      NumeralValueIn(n / base, base);
      assert s == q + [DigitChar(n % base)];
      assert s[..|s| - 1] == q;
      assert DigitsValueIn(s, base) == DigitsValueIn(q, base) * base + n % base;
      DivMod(n, base);
    }
  }

  lemma DivMod(n: nat, b: nat)
    requires 0 < b
    ensures (n / b) * b + n % b == n
  {
  }

  /** `k` zeros read as zero in every base. */
  lemma {:induction false} ZerosValueIn(k: nat, base: nat)
    ensures AllHexDigits(Zeros(k))
    ensures DigitsValueIn(Zeros(k), base) == 0
  {
    if k > 0 {
      ZerosValueIn(k - 1, base);
      assert Zeros(k)[..k - 1] == Zeros(k - 1);
    }
  }

  /** Zeros in front of a numeral never change its value, in any base. */
  lemma {:induction false} LeadingZerosValueIn(k: nat, s: string, base: nat)
    requires AllHexDigits(s)
    ensures AllHexDigits(Zeros(k) + s)
    ensures DigitsValueIn(Zeros(k) + s, base) == DigitsValueIn(s, base)
  {
    ZerosValueIn(k, base);
    var z := Zeros(k) + s;
    if |s| == 0 {
      assert z == Zeros(k);
    } else {
      var s' := s[..|s| - 1];
      LeadingZerosValueIn(k, s', base);
      assert z[..|z| - 1] == Zeros(k) + s';
      assert z[|z| - 1] == s[|s| - 1];
    }
  }

  /** The zero-padded numeral in any base reads back as its number, whatever the width. */
  lemma ZeroPaddedValueIn(n: nat, base: nat, width: nat)
    requires 2 <= base <= 16
    ensures AllHexDigits(ZeroPadded(n, base, width))
    ensures DigitsValueIn(ZeroPadded(n, base, width), base) == n
  {
    var d := Numeral(n, base);
    NumeralValueIn(n, base);
    if |d| < width {
      assert ZeroPadded(n, base, width) == Zeros(width - |d|) + d;
      LeadingZerosValueIn(width - |d|, d, base);
    } else {
      assert ZeroPadded(n, base, width) == d;
    }
  }

  /** On decimal digits the general reader agrees with `DigitsValue`. */
  lemma {:induction false} DecimalValueAgrees(s: string)
    requires AllDigits(s)
    ensures AllHexDigits(s)
    ensures DigitsValueIn(s, 10) == DigitsValue(s)
  {
    if |s| > 0 {
      DecimalValueAgrees(s[..|s| - 1]);
    }
  }

  /** The shortest numeral has at most `k` digits exactly when `n < base^k`. */
  lemma {:induction false} NumeralLength(n: nat, base: nat, k: nat)
    requires 2 <= base <= 16 && 1 <= k
    ensures |Numeral(n, base)| <= k <==> n < Pow(base, k)
  {
    var p := Pow(base, k - 1);
    assert Pow(base, k) == base * p;
    PowPositive(base, k - 1);
    MulMonotone(1, base, p);
    if n < base {
      assert |Numeral(n, base)| == 1;
      MulMonotone(1, p, base);
    } else {
      DivStep(n, base);
      assert |Numeral(n, base)| == |Numeral(n / base, base)| + 1;
      if k == 1 {
        assert p == 1;
      } else {
        NumeralLength(n / base, base, k - 1);
        DivBound(n, base, p);
      }
    }
  }

  lemma PowPositive(base: nat, k: nat)
    requires 1 <= base
    ensures 1 <= Pow(base, k)
  {
  }

  lemma DivBound(n: nat, b: nat, p: nat)
    requires 2 <= b
    ensures n / b < p <==> n < b * p
  {
    var q, r := n / b, n % b;
    assert n == b * q + r && 0 <= r < b;
    if q < p {
      MulMonotone(q + 1, p, b);
      assert b * (q + 1) == b * q + b;
    } else {
      MulMonotone(p, q, b);
    }
  }

  /**
    `"%0Nd"` yields exactly `N` characters precisely when `n < 10^N`; a larger number
    makes the numeral wider, never an error.
  */
  lemma ZeroPaddedWidth(n: nat, width: nat)
    requires 1 <= width
    ensures |ZeroPadded(n, 10, width)| == width <==> n < Pow(10, width)
  {
    NumeralLength(n, 10, width);
  }

  /** Characters below 0x80 survive an encode/decode trip through US-ASCII. */
  lemma AsciiRoundTrip(s: string)
    requires forall i :: 0 <= i < |s| ==> (s[i] as int) < 0x80
    ensures AsciiDecode(AsciiEncode(s)) == s
  {
    var d := AsciiDecode(AsciiEncode(s));
    assert forall i :: 0 <= i < |s| ==> d[i] == s[i];
  }

  /** US-ASCII encoding works character by character. */
  lemma AsciiEncodeAppend(a: string, b: string)
    ensures AsciiEncode(a + b) == AsciiEncode(a) + AsciiEncode(b)
  {
    var l, r := AsciiEncode(a + b), AsciiEncode(a) + AsciiEncode(b);
    assert |l| == |r|;
    forall i | 0 <= i < |l| ensures l[i] == r[i] {
      if i < |a| {
        assert (a + b)[i] == a[i];
      } else {
        assert (a + b)[i] == b[i - |a|];
      }
    }
  }

  lemma DigitsAreAscii(s: string)
    requires AllDigits(s)
    ensures forall i :: 0 <= i < |s| ==> (s[i] as int) < 0x80
  {
  }
}
