/** Numerals and the few Python string primitives the encoders and the call-data
    summariser are built from: positional digits (Python's `hex` without its
    prefix and `str` on a non-negative int), their inverse, `str.zfill` and
    ASCII `str.lower`. */
module Numerals {

  /** The digit characters Python prints, lower-case for 10..15. */
  function DigitChar(d: nat): (c: char)
    requires d < 16
  {
    "0123456789abcdef"[d]
  }

  /** The value of a hexadecimal digit of either case; 0 for other characters. */
  function DigitValue(c: char): nat
  {
    if '0' <= c <= '9' then c as nat - '0' as nat
    else if 'a' <= c <= 'f' then c as nat - 'a' as nat + 10
    else if 'A' <= c <= 'F' then c as nat - 'A' as nat + 10
    else 0
  }

  predicate IsLowerHexDigit(c: char)
  {
    '0' <= c <= '9' || 'a' <= c <= 'f'
  }

  lemma DigitCharValue(d: nat)
    requires d < 16
    ensures DigitValue(DigitChar(d)) == d
    ensures IsLowerHexDigit(DigitChar(d))
    ensures d < 10 ==> '0' <= DigitChar(d) <= '9'
  {
  }

  function Pow(base: nat, k: nat): (r: nat)
    requires base >= 1
    ensures r >= 1
  {
    if k == 0 then 1 else base * Pow(base, k - 1)
  }

  /** The canonical numeral of `v` in `base`: no leading zeros, "0" for zero. */
  function Digits(v: nat, base: nat): string
    requires 2 <= base <= 16
    decreases v
  {
    if v < base then [DigitChar(v)]
    else Digits(v / base, base) + [DigitChar(v % base)]
  }

  /** The value of a numeral read most significant digit first. */
  function Value(s: string, base: nat): nat
  {
    if s == [] then 0 else Value(s[..|s| - 1], base) * base + DigitValue(s[|s| - 1])
  }

  /** Euclidean division by a base, stated once for the digit lemmas. */
  lemma DivMod(v: nat, base: nat)
    requires 2 <= base <= 16
    ensures v == (v / base) * base + v % base && v % base < base
    ensures v >= base ==> 1 <= v / base < v
  {
  }

  /** Reading back a printed numeral gives the number. */
  lemma {:induction false} DigitsRoundTrip(v: nat, base: nat)
    requires 2 <= base <= 16
    ensures Value(Digits(v, base), base) == v
    decreases v
  {
    var s := Digits(v, base);
    if v < base {
      DigitCharValue(v);
    } else {
      var q, r := v / base, v % base;
      DivMod(v, base);
      DigitsRoundTrip(q, base);
      DigitCharValue(r);
      var p := Digits(q, base);
      assert s == p + [DigitChar(r)];
      assert s[..|s| - 1] == p;
      assert Value(s, base) == q * base + r;
    }
  }

  /** A printed numeral is non-empty, made of lower-case digits of its base,
      and has a leading zero only when it is "0". */
  lemma {:induction false} DigitsShape(v: nat, base: nat)
    requires 2 <= base <= 16
    ensures |Digits(v, base)| >= 1
    ensures forall i :: 0 <= i < |Digits(v, base)| ==>
              IsLowerHexDigit(Digits(v, base)[i]) && DigitValue(Digits(v, base)[i]) < base
    ensures Digits(v, base)[0] == '0' <==> v == 0
    decreases v
  {
    var s := Digits(v, base);
    if v < base {
      DigitCharValue(v);
      DigitCharValue(0);
    } else {
      var q, r := v / base, v % base;
      DivMod(v, base);
      var p := Digits(q, base);
      DigitsShape(q, base);
      DigitCharValue(r);
      assert s == p + [DigitChar(r)];
      forall i | 0 <= i < |s|
        ensures IsLowerHexDigit(s[i]) && DigitValue(s[i]) < base
      {
        if i < |p| {
          assert s[i] == p[i];
        }
      }
      assert s[0] == p[0];
    }
  }

  /** The numeral of `v` has at most `k` digits exactly when `v < base^k`. */
  lemma {:induction false} DigitsLength(v: nat, base: nat, k: nat)
    requires 2 <= base <= 16 && k >= 1
    ensures |Digits(v, base)| <= k <==> v < Pow(base, k)
    decreases v
  {
    if v < base {
      PowAtLeastBase(base, k);
    } else {
      var q := v / base;
      DivMod(v, base);
      assert |Digits(v, base)| == |Digits(q, base)| + 1;
      if k == 1 {
        DigitsShape(q, base);
      } else {
        DigitsLength(q, base, k - 1);
        DivBound(v, base, Pow(base, k - 1));
      }
    }
  }

  lemma PowAtLeastBase(base: nat, k: nat)
    requires base >= 1 && k >= 1
    ensures Pow(base, k) >= base
  {
    assert Pow(base, k) == base * Pow(base, k - 1);
  }

  lemma DivBound(v: nat, base: nat, p: nat)
    requires 2 <= base <= 16
    ensures v / base < p <==> v < base * p
  {
    var q, r := v / base, v % base;
    assert v == base * q + r && r < base by {
      DivMod(v, base);
    }
    QuotientBound(q, r, base, p);
  }

  /** `base * q + r` with a digit `r` stays below `base * p` exactly when `q < p`. */
  lemma QuotientBound(q: nat, r: nat, base: nat, p: nat)
    requires r < base
    ensures q < p <==> base * q + r < base * p
  {
    if q < p {
      MulMonotone(base, q + 1, p);
      assert base * (q + 1) == base * q + base;
    } else {
      MulMonotone(base, p, q);
    }
  }

  lemma MulMonotone(a: nat, x: nat, y: nat)
    requires x <= y
    ensures a * x <= a * y
  {
    assert a * y == a * x + a * (y - x);
  }

  /** Python's `hex(v)`: "0x" and the lower-case hexadecimal numeral, with a
      '-' in front for negative numbers. */
  function Hex(v: int): (r: string)
  {
    if v >= 0 then "0x" + Digits(v, 16) else "-0x" + Digits(-v, 16)
  }

  /** `n` zero characters. */
  function Zeros(n: nat): (r: string)
    ensures |r| == n
    ensures forall i :: 0 <= i < n ==> r[i] == '0'
  {
    if n == 0 then [] else Zeros(n - 1) + ['0']
  }

  /** Leading zeros do not change a numeral's value. */
  lemma {:induction false} ValueZeros(n: nat, s: string, base: nat)
    ensures Value(Zeros(n) + s, base) == Value(s, base)
    decreases |s|, n
  {
    if s == [] {
      assert Zeros(n) + s == Zeros(n);
      if n > 0 {
        ValueZeros(n - 1, [], base);
        assert Zeros(n)[..n - 1] == Zeros(n - 1) + [];
      }
    } else {
      var t := Zeros(n) + s;
      assert t[..|t| - 1] == Zeros(n) + s[..|s| - 1];
      ValueZeros(n, s[..|s| - 1], base);
    }
  }

  /** Python's `str.zfill(width)`: strings at least `width` long are returned
      as they are; shorter ones are left-padded with '0', and a leading '+' or
      '-' stays in front of the padding. */
  function ZFill(s: string, width: nat): (r: string)
  {
    if |s| >= width then s
    else if |s| > 0 && (s[0] == '+' || s[0] == '-') then [s[0]] + Zeros(width - |s|) + s[1..]
    else Zeros(width - |s|) + s
  }

  lemma ZFillShape(s: string, width: nat)
    ensures |ZFill(s, width)| == if |s| >= width then |s| else width
    ensures |s| < width && (s == [] || (s[0] != '+' && s[0] != '-')) ==>
              ZFill(s, width) == Zeros(width - |s|) + s
  {
  }

  function LowerChar(c: char): char
  {
    if 'A' <= c <= 'Z' then (c as int - 'A' as int + 'a' as int) as char else c
  }

  /** ASCII `str.lower`. */
  function Lower(s: string): (r: string)
    ensures |r| == |s|
    ensures forall i :: 0 <= i < |s| ==> r[i] == LowerChar(s[i])
  {
    if s == [] then [] else [LowerChar(s[0])] + Lower(s[1..])
  }

  lemma LowerFront(s: string)
    requires s != []
    ensures Lower(s) == [LowerChar(s[0])] + Lower(s[1..])
  {
  }

  /** `s[n:]` in Python: empty when `s` is shorter than `n`. */
  function DropPrefix(s: string, n: nat): (r: string)
  {
    if |s| <= n then [] else s[n..]
  }
}
