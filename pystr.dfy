/** The few Python and JavaScript string operations the services use:
    substring test (`sub in s`), `str.replace`, `str.split`, and the
    rendering of integers in a radix (`str(n)`, `Number.toString(36)`). */
module PyStr {

  /** Python `sub in s`, computed by scanning. */
  predicate IsSubstring(sub: string, s: string)
    decreases |s|
  {
    if |s| < |sub| then false
    else s[..|sub|] == sub || IsSubstring(sub, s[1..])
  }

  /** The declarative meaning of `sub in s`: some window of s equals sub. */
  ghost predicate OccursAt(sub: string, s: string, i: int)
  {
    0 <= i && i + |sub| <= |s| && s[i..i + |sub|] == sub
  }

  lemma {:induction false} IsSubstringIffOccurs(sub: string, s: string)
    ensures IsSubstring(sub, s) <==> exists i :: OccursAt(sub, s, i)
    decreases |s|
  {
    if |s| < |sub| {
      forall i | OccursAt(sub, s, i) ensures false { }
    } else if s[..|sub|] == sub {
      assert OccursAt(sub, s, 0);
    } else {
      IsSubstringIffOccurs(sub, s[1..]);
      if IsSubstring(sub, s[1..]) {
        var i :| OccursAt(sub, s[1..], i);
        assert s[1..][i..i + |sub|] == s[i + 1..i + 1 + |sub|];
        assert OccursAt(sub, s, i + 1);
      } else {
        forall i | OccursAt(sub, s, i) ensures false {
          if i > 0 {
            assert s[1..][i - 1..i - 1 + |sub|] == s[i..i + |sub|];
            assert OccursAt(sub, s[1..], i - 1);
          }
        }
      }
    }
  }

  /** A string lacking one of the pattern's characters does not contain it. */
  lemma {:induction false} NotSubstringWithoutChar(sub: string, s: string, c: char)
    requires c in sub && c !in s
    ensures !IsSubstring(sub, s)
    decreases |s|
  {
    if |s| >= |sub| {
      var k :| 0 <= k < |sub| && sub[k] == c;
      assert s[..|sub|][k] == s[k];
      NotSubstringWithoutChar(sub, s[1..], c);
    }
  }

  /** Python `s.replace(pat, by)`: every non-overlapping occurrence of the
      (non-empty) pattern, scanning left to right, is replaced. */
  function ReplaceAll(s: string, pat: string, repl: string): string
    requires |pat| > 0
    decreases |s|
  {
    if |s| < |pat| then s
    else if s[..|pat|] == pat then repl + ReplaceAll(s[|pat|..], pat, repl)
    else [s[0]] + ReplaceAll(s[1..], pat, repl)
  }

  /** A string in which the pattern does not occur is returned unchanged. */
  lemma {:induction false} ReplaceAllAbsent(s: string, pat: string, repl: string)
    requires |pat| > 0
    requires !IsSubstring(pat, s)
    ensures ReplaceAll(s, pat, repl) == s
    decreases |s|
  {
    if |s| >= |pat| {
      ReplaceAllAbsent(s[1..], pat, repl);
      assert [s[0]] + s[1..] == s;
    }
  }

  /** A text that starts with the pattern has it replaced right there. */
  lemma ReplaceAllPrefix(pat: string, rest: string, repl: string)
    requires |pat| > 0
    ensures ReplaceAll(pat + rest, pat, repl) == repl + ReplaceAll(rest, pat, repl)
  {
    assert (pat + rest)[..|pat|] == pat;
    assert (pat + rest)[|pat|..] == rest;
  }

  /** Python `s.split(sep)` for a one-character separator. */
  function Split(s: string, sep: char): (r: seq<string>)
    ensures |r| >= 1
  {
    if s == [] then [""]
    else
      var rest := Split(s[1..], sep);
      if s[0] == sep then [""] + rest else [[s[0]] + rest[0]] + rest[1..]
  }

  /** Python `sep.join(parts)`. */
  function Join(parts: seq<string>, sep: char): string
    requires |parts| >= 1
  {
    if |parts| == 1 then parts[0] else parts[0] + [sep] + Join(parts[1..], sep)
  }

  /** Split and join are inverse: `sep.join(s.split(sep)) == s`. */
  lemma {:induction false} JoinSplit(s: string, sep: char)
    ensures Join(Split(s, sep), sep) == s
  {
    if s != [] {
      var rest := Split(s[1..], sep);
      JoinSplit(s[1..], sep);
      if s[0] == sep {
        assert Split(s, sep)[1..] == rest;
      } else {
        var r := Split(s, sep);
        if |rest| == 1 {
          assert r == [[s[0]] + rest[0]];
        } else {
          assert r[1..] == rest[1..];
          assert Join(rest, sep) == rest[0] + [sep] + Join(rest[1..], sep);
        }
      }
    }
  }

  /** No separator in s: splitting yields s alone. */
  lemma {:induction false} SplitAbsent(s: string, sep: char)
    requires sep !in s
    ensures Split(s, sep) == [s]
  {
    if s != [] {
      SplitAbsent(s[1..], sep);
      assert [s[0]] + s[1..] == s;
    }
  }

  /** A separator-free prefix is split off as the first part. */
  lemma {:induction false} SplitAfterFirst(a: string, b: string, sep: char)
    requires sep !in a
    ensures Split(a + [sep] + b, sep) == [a] + Split(b, sep)
  {
    if a == [] {
      assert a + [sep] + b == [sep] + b;
      assert ([sep] + b)[1..] == b;
    } else {
      var s := a + [sep] + b;
      assert s[1..] == a[1..] + [sep] + b;
      SplitAfterFirst(a[1..], b, sep);
      assert [a[0]] + a[1..] == a;
    }
  }

  /** The digits of JavaScript's Number.toString and of Python's str(int):
      0-9, then a-z for the values 10 to 35. */
  function DigitChar(d: nat): (c: char)
    requires d < 36
    ensures ('0' <= c <= '9') <==> d < 10
    ensures c == '0' <==> d == 0
  {
    if d < 10 then ((d as int) + ('0' as int)) as char
    else ((d as int) - 10 + ('a' as int)) as char
  }

  /** The inverse of DigitChar; -1 for a character that is not a digit. */
  function DigitValue(c: char): int
  {
    if '0' <= c <= '9' then (c as int) - ('0' as int)
    else if 'a' <= c <= 'z' then (c as int) - ('a' as int) + 10
    else -1
  }

  lemma DigitRoundTrip(d: nat)
    requires d < 36
    ensures DigitValue(DigitChar(d)) == d
  {
  }

  /** Euclidean division by a radix, as the digit rendering uses it. */
  lemma DivModRadix(n: nat, radix: nat)
    requires 2 <= radix <= 36
    ensures n == (n / radix) * radix + n % radix
    ensures 0 <= n % radix < radix
    ensures n >= radix ==> 0 < n / radix < n
  {
  }

  /** n written in the given radix, most significant digit first, no leading zeros. */
  function NatToString(n: nat, radix: nat): (r: string)
    requires 2 <= radix <= 36
    ensures |r| >= 1
    ensures forall i :: 0 <= i < |r| ==> 0 <= DigitValue(r[i]) < radix
    ensures |r| > 1 ==> r[0] != '0'
    decreases n
  {
    if n < radix then
      DigitRoundTrip(n);
      [DigitChar(n)]
    else
      DivModRadix(n, radix);
      DigitRoundTrip(n % radix);
      NatToString(n / radix, radix) + [DigitChar(n % radix)]
  }

  /** The value of a string of digits in the given radix. */
  function StringToNat(s: string, radix: nat): int
    requires 2 <= radix <= 36
  {
    if s == [] then 0
    else StringToNat(s[..|s| - 1], radix) * radix + DigitValue(s[|s| - 1])
  }

  /** Reading back what was written yields the number: the rendering is exact. */
  lemma {:induction false} StringToNatOfNatToString(n: nat, radix: nat)
    requires 2 <= radix <= 36
    ensures StringToNat(NatToString(n, radix), radix) == n
    decreases n
  {
    var s := NatToString(n, radix);
    if n < radix {
      DigitRoundTrip(n);
      assert s[..0] == [];
    } else {
      DivModRadix(n, radix);
      DigitRoundTrip(n % radix);
      StringToNatOfNatToString(n / radix, radix);
      assert s[..|s| - 1] == NatToString(n / radix, radix);
    }
  }

  /** Leading zeros do not change the value. */
  lemma {:induction false} StringToNatLeadingZeros(k: nat, s: string, radix: nat)
    requires 2 <= radix <= 36
    ensures StringToNat(seq(k, _ => '0') + s, radix) == StringToNat(s, radix)
    decreases |s|
  {
    var z := seq(k, _ => '0');
    if s == [] {
      assert z + s == z;
      ZerosValue(k, radix);
    } else {
      assert (z + s)[..|z + s| - 1] == z + s[..|s| - 1];
      StringToNatLeadingZeros(k, s[..|s| - 1], radix);
    }
  }

  lemma {:induction false} ZerosValue(k: nat, radix: nat)
    requires 2 <= radix <= 36
    ensures StringToNat(seq(k, _ => '0'), radix) == 0
  {
    if k > 0 {
      assert seq(k, _ => '0')[..k - 1] == seq(k - 1, _ => '0');
      ZerosValue(k - 1, radix);
    }
  }

  /** r is how Python writes the int n: a minus sign for a negative n,
      then at least one decimal digit, no leading zero, reading back as the
      magnitude of n. */
  predicate IsDecimalText(r: string, n: int)
  {
    (n < 0 ==> |r| >= 2 && r[0] == '-')
    && var digits := if n < 0 then r[1..] else r;
    |digits| >= 1 && (forall i :: 0 <= i < |digits| ==> '0' <= digits[i] <= '9')
    && (|digits| > 1 ==> digits[0] != '0')
    && StringToNat(digits, 10) == if n < 0 then -n else n
  }

  /** Python `str(n)` for an int. */
  function IntToDecimal(n: int): (r: string)
    ensures IsDecimalText(r, n)
  {
    StringToNatOfNatToString(if n >= 0 then n else -n, 10);
    if n >= 0 then NatToString(n, 10) else "-" + NatToString(-n, 10)
  }
}
