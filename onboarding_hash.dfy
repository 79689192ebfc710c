/** The storage-key hash of the onboarding guide
    (ui/src/components/OnboardingGuide.tsx, hashString): the 32-bit string
    hash over UTF-16 code units, h := int32(31 * h + unit), whose absolute
    value is written in base 36, padded to eight digits and cut to eight. */
module OnboardingHash {
  import opened PyStr

  const TwoTo31: int := 0x8000_0000
  const TwoTo32: int := 0x1_0000_0000

  /** JavaScript's ToInt32: wrap an integer into [-2^31, 2^31). */
  function Int32(x: int): (r: int)
    ensures -TwoTo31 <= r < TwoTo31
    ensures -TwoTo31 <= x < TwoTo31 ==> r == x
  {
    ((x + TwoTo31) % TwoTo32) - TwoTo31
  }

  /** Int32 depends only on the value modulo 2^32. */
  lemma Int32Shift(x: int, k: int)
    ensures Int32(x + k * TwoTo32) == Int32(x)
  {
    var y := x + TwoTo31;
    assert (y + k * TwoTo32) % TwoTo32 == y % TwoTo32 by {
      var q, r := y / TwoTo32, y % TwoTo32;
      assert y + k * TwoTo32 == (q + k) * TwoTo32 + r;
    }
  }

  /** The wrapped value differs from the original by a multiple of 2^32. */
  lemma Int32Offset(x: int) returns (k: int)
    ensures Int32(x) == x + k * TwoTo32
  {
    k := -((x + TwoTo31) / TwoTo32);
  }

  /** `str.charCodeAt(i)` ranges over the UTF-16 code units of the string:
      a character beyond the Basic Multilingual Plane is two surrogates. */
  function Utf16(s: string): (units: seq<int>)
    ensures forall i :: 0 <= i < |units| ==> 0 <= units[i] < 0x1_0000
    ensures |units| >= |s|
  {
    if s == [] then []
    else
      var c := s[0] as int;
      var head := if c < 0x1_0000 then [c]
                  else [0xD800 + (c - 0x1_0000) / 0x400, 0xDC00 + (c - 0x1_0000) % 0x400];
      head + Utf16(s[1..])
  }

  /** Without characters beyond the Basic Multilingual Plane there is one
      code unit per character, equal to the character's code. */
  lemma {:induction false} Utf16OfBmp(s: string)
    requires forall i :: 0 <= i < |s| ==> (s[i] as int) < 0x1_0000
    ensures |Utf16(s)| == |s|
    ensures forall i :: 0 <= i < |s| ==> Utf16(s)[i] == s[i] as int
  {
    if s != [] {
      Utf16OfBmp(s[1..]);
    }
  }

  /** One iteration: the hash shifted left by five, less the hash, plus the
      code unit. The shift wraps to 32 bits, the subtraction and addition
      are exact, and the bitwise and of the hash with itself wraps again. */
  function Step(hash: int, unit: int): int
  {
    Int32(Int32(hash * 32) - hash + unit)
  }

  /** Each iteration multiplies by 31 and adds the unit, modulo 2^32. */
  lemma StepIsTimes31(hash: int, unit: int)
    ensures Step(hash, unit) == Int32(31 * hash + unit)
  {
    var k := Int32Offset(hash * 32);
    assert Int32(hash * 32) - hash + unit == (31 * hash + unit) + k * TwoTo32;
    Int32Shift(31 * hash + unit, k);
  }

  /** The hash after folding the code units from the left, starting at 0. */
  function HashOf(units: seq<int>): (h: int)
    ensures -TwoTo31 <= h < TwoTo31
  {
    if units == [] then 0
    else Step(HashOf(units[..|units| - 1]), units[|units| - 1])
  }

  /** The polynomial the hash computes without any wrapping:
      units[0] * 31^(n-1) + ... + units[n-1]. */
  function Poly(units: seq<int>): int
  {
    if units == [] then 0
    else Poly(units[..|units| - 1]) * 31 + units[|units| - 1]
  }

  /** The folded hash is the polynomial wrapped once to 32 bits: wrapping
      at every step loses nothing more. */
  lemma {:induction false} HashIsWrappedPoly(units: seq<int>)
    ensures HashOf(units) == Int32(Poly(units))
  {
    if units != [] {
      var init, last := units[..|units| - 1], units[|units| - 1];
      HashIsWrappedPoly(init);
      StepIsTimes31(HashOf(init), last);
      var k := Int32Offset(Poly(init));
      assert 31 * Int32(Poly(init)) + last == Poly(units) + (31 * k) * TwoTo32;
      Int32Shift(Poly(units), 31 * k);
    }
  }

  /** `Math.abs`. */
  function Abs(n: int): nat
  {
    if n < 0 then -n else n
  }

  /** `s.padStart(n, c)` for a one-character fill. */
  function PadStart(s: string, n: nat, c: char): (r: string)
    ensures |r| == if |s| >= n then |s| else n
  {
    if |s| >= n then s else seq(n - |s|, _ => c) + s
  }

  /** `s.slice(0, n)`. */
  function Prefix(s: string, n: nat): (r: string)
    ensures |r| == if |s| <= n then |s| else n
  {
    if |s| <= n then s else s[..n]
  }

  /** The absolute value in base 36, padded with zeros to eight digits and
      cut to eight. */
  function Key(hash: int): string
  {
    Prefix(PadStart(NatToString(Abs(hash), 36), 8, '0'), 8)
  }

  /** The key hashString returns for a string. */
  function HashKey(s: string): string
  {
    Key(HashOf(Utf16(s)))
  }

  function Pow(b: nat, k: nat): nat
  {
    if k == 0 then 1 else b * Pow(b, k - 1)
  }

  lemma CancelFactor(q: int, p: int, m: int)
    requires m > 0 && q * m < p * m
    ensures q < p
  {
    assert q * m - p * m == (q - p) * m;
  }

  /** A number below radix^k has at most k digits. */
  lemma {:induction false} DigitsBound(n: nat, radix: nat, k: nat)
    requires 2 <= radix <= 36 && 1 <= k && n < Pow(radix, k)
    ensures |NatToString(n, radix)| <= k
    decreases k
  {
    if n >= radix {
      DivModRadix(n, radix);
      assert Pow(radix, 1) == radix;
      assert k >= 2;
      var q, p := n / radix, Pow(radix, k - 1);
      assert q * radix < p * radix;
      CancelFactor(q, p, radix);
      DigitsBound(n / radix, radix, k - 1);
    }
  }

  /** Every key has exactly eight base-36 digits. */
  lemma KeyShape(hash: int)
    ensures |Key(hash)| == 8
    ensures forall i :: 0 <= i < 8 ==> 0 <= DigitValue(Key(hash)[i]) < 36
  {
    var d := NatToString(Abs(hash), 36);
    var p := PadStart(d, 8, '0');
    forall i | 0 <= i < |p|
      ensures 0 <= DigitValue(p[i]) < 36
    {
      if |d| < 8 && i < 8 - |d| {
        assert p[i] == '0';
      } else if |d| < 8 {
        assert p[i] == d[i - (8 - |d|)];
      }
    }
  }

  /** The key of a 32-bit hash is its absolute value in base 36 with
      leading zeros: no digit is cut off, and the key reads back as
      `Math.abs(hash)`. */
  lemma KeyValue(hash: int)
    requires -TwoTo31 <= hash < TwoTo31
    ensures StringToNat(Key(hash), 36) == Abs(hash)
  {
    var d := NatToString(Abs(hash), 36);
    assert Pow(36, 6) == 2176782336;
    DigitsBound(Abs(hash), 36, 6);
    StringToNatOfNatToString(Abs(hash), 36);
    StringToNatLeadingZeros(8 - |d|, d, 36);
  }

  /** hashString always yields eight base-36 digits, and its value is the
      absolute 32-bit hash of the string. */
  lemma HashKeyProperties(s: string)
    ensures |HashKey(s)| == 8
    ensures forall i :: 0 <= i < 8 ==> 0 <= DigitValue(HashKey(s)[i]) < 36
    ensures StringToNat(HashKey(s), 36) == Abs(Int32(Poly(Utf16(s))))
  {
    KeyShape(HashOf(Utf16(s)));
    KeyValue(HashOf(Utf16(s)));
    HashIsWrappedPoly(Utf16(s));
  }

  /** The empty deployment name hashes to eight zeros. */
  lemma EmptyKey()
    ensures HashKey("") == "00000000"
  {
    assert NatToString(0, 36) == "0";
  }

  /** Distinct deployments can share a key: "Aa" and "BB" both hash to
      31 * 65 + 97 == 31 * 66 + 66. */
  lemma KeysCollide()
    ensures HashKey("Aa") == HashKey("BB")
  {
    TwoUnits("Aa");
    TwoUnits("BB");
    HashIsWrappedPoly([65, 97]);
    HashIsWrappedPoly([66, 66]);
    PolyPair(65, 97);
    PolyPair(66, 66);
  }

  lemma TwoUnits(s: string)
    requires |s| == 2 && (s[0] as int) < 0x1_0000 && (s[1] as int) < 0x1_0000
    ensures Utf16(s) == [s[0] as int, s[1] as int]
  {
    var t := s[1..];
    assert t[0] == s[1] && t[1..] == [];
    assert Utf16(t) == [s[1] as int] + Utf16(t[1..]);
  }

  lemma PolyPair(a: int, b: int)
    ensures Poly([a, b]) == 31 * a + b
  {
    assert [a][..0] == [];
    assert Poly([a]) == a;
    assert [a, b][..1] == [a];
  }

  /** hashString as the loop of the source. */
  method HashString(str: string) returns (key: string)
    ensures key == HashKey(str)
  {
    var units := Utf16(str);
    var hash := 0;
    var i := 0;
    while i < |units|
      invariant 0 <= i <= |units|
      invariant hash == HashOf(units[..i])
    {
      var unit := units[i];
      hash := Int32(hash * 32) - hash + unit;
      hash := Int32(hash);
      assert units[..i + 1][..i] == units[..i];
      i := i + 1;
    }
    assert units[..i] == units;
    key := Prefix(PadStart(NatToString(Abs(hash), 36), 8, '0'), 8);
  }
}
