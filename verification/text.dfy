/** String primitives of the JavaScript runtime that the storefront relies on:
    decimal rendering and parsing of integers, `includes`, `padStart`,
    `replace(/x/g, "")`, `join` / `split`, and case mapping. */
module Text {
  import Seqs

  predicate IsDigit(c: char) {
    '0' <= c <= '9'
  }

  predicate AllDigits(s: string) {
    forall i :: 0 <= i < |s| ==> IsDigit(s[i])
  }

  /** A string of ASCII digits only (possibly empty). */
  type DigitString = s: string | AllDigits(s)

  function DigitValue(c: char): nat
    requires IsDigit(c)
  {
    c as int - '0' as int
  }

  function DigitChar(d: nat): (c: char)
    requires d < 10
    ensures IsDigit(c) && DigitValue(c) == d
  {
    ('0' as int + d) as char
  }

  /** Decimal value of a digit string; the empty string has value 0. */
  function DigitsValue(s: string): nat
    requires AllDigits(s)
  {
    if |s| == 0 then 0 else DigitsValue(s[..|s| - 1]) * 10 + DigitValue(s[|s| - 1])
  }

  /** A decimal numeral without superfluous leading zeros. */
  predicate Canonical(s: string) {
    |s| > 0 && AllDigits(s) && (s[0] == '0' ==> |s| == 1)
  }

  /** `n.toString()` for a natural number. */
  function NatToString(n: nat): (r: string)
    ensures Canonical(r)
    ensures r[0] == '0' <==> n == 0
    ensures DigitsValue(r) == n
  {
    if n < 10 then [DigitChar(n)]
    else
      var prefix := NatToString(n / 10);
      var r := prefix + [DigitChar(n % 10)];
      assert r[..|r| - 1] == prefix;
      r
  }

  lemma {:induction false} LeadingNonZeroPositive(s: string)
    requires |s| > 0 && AllDigits(s) && s[0] != '0'
    ensures DigitsValue(s) > 0
    decreases |s|
  {
    if |s| > 1 {
      LeadingNonZeroPositive(s[..|s| - 1]);
    }
  }

  /** Parsing a canonical numeral and printing the value gives the numeral
      back: with NatToString's own contract, the two are inverse bijections
      between naturals and canonical numerals. */
  lemma {:induction false} NatToStringOfValue(s: string)
    requires Canonical(s)
    ensures NatToString(DigitsValue(s)) == s
    decreases |s|
  {
    if |s| > 1 {
      var t := s[..|s| - 1];
      LeadingNonZeroPositive(t);
      NatToStringOfValue(t);
      var v, d := DigitsValue(t), DigitValue(s[|s| - 1]);
      DivModStep(v, d);
      assert DigitChar(d) == s[|s| - 1];
      assert s == t + [s[|s| - 1]];
    }
  }

  /** Appending a digit to a number's decimal form, seen arithmetically. */
  lemma DivModStep(v: nat, d: nat)
    requires d < 10
    ensures (v * 10 + d) / 10 == v && (v * 10 + d) % 10 == d
  {
  }

  lemma NatToStringInjective(m: nat, n: nat)
    requires NatToString(m) == NatToString(n)
    ensures m == n
  {
  }

  /** A zero in front does not change the value of a numeral. */
  lemma {:induction false} LeadingZeroValue(s: string)
    requires AllDigits(s)
    ensures AllDigits("0" + s) && DigitsValue("0" + s) == DigitsValue(s)
    decreases |s|
  {
    if |s| > 0 {
      var t := s[..|s| - 1];
      LeadingZeroValue(t);
      assert ("0" + s)[..|s|] == "0" + t;
    }
  }

  function Repeat(c: char, k: nat): (r: string)
    ensures |r| == k
    ensures forall i :: 0 <= i < k ==> r[i] == c
  {
    if k == 0 then "" else [c] + Repeat(c, k - 1)
  }

  lemma {:induction false} LeadingZerosValue(k: nat, s: string)
    requires AllDigits(s)
    ensures AllDigits(Repeat('0', k) + s)
    ensures DigitsValue(Repeat('0', k) + s) == DigitsValue(s)
    decreases k
  {
    if k > 0 {
      LeadingZerosValue(k - 1, s);
      var x := Repeat('0', k - 1) + s;
      LeadingZeroValue(x);
      assert Repeat('0', k) + s == "0" + x;
      assert DigitsValue(Repeat('0', k) + s) == DigitsValue("0" + x);
    } else {
      assert Repeat('0', k) + s == s;
    }
  }

  /** `s.padStart(n, c)` with a one-character pad string. */
  function PadStart(s: string, n: nat, c: char): (r: string)
    ensures |r| == if |s| >= n then |s| else n
    ensures r[|r| - |s|..] == s
    ensures forall i :: 0 <= i < |r| - |s| ==> r[i] == c
  {
    if |s| >= n then s else Repeat(c, n - |s|) + s
  }

  /** Zero-padding a numeral keeps its value. */
  lemma PadStartZerosValue(s: string, n: nat)
    requires AllDigits(s)
    ensures AllDigits(PadStart(s, n, '0'))
    ensures DigitsValue(PadStart(s, n, '0')) == DigitsValue(s)
  {
    if |s| < n {
      LeadingZerosValue(n - |s|, s);
    }
  }

  /** A non-empty digit string is its own value printed and zero-padded back
      to its length: leading zeros are all it has beyond the numeral. */
  lemma {:induction false} DigitsArePaddedValue(s: string)
    requires |s| > 0 && AllDigits(s)
    ensures PadStart(NatToString(DigitsValue(s)), |s|, '0') == s
    decreases |s|
  {
    if Canonical(s) {
      NatToStringOfValue(s);
    } else {
      var t := s[1..];
      assert s == "0" + t;
      LeadingZeroValue(t);
      DigitsArePaddedValue(t);
      var x := NatToString(DigitsValue(t));
      assert Repeat('0', |s| - |x|) == "0" + Repeat('0', |t| - |x|);
      if |x| == |t| {
        assert Repeat('0', |t| - |x|) + x == x;
      }
    }
  }

  /** Number.prototype.toString for an integer. */
  function IntToString(i: int): (r: string)
    ensures i >= 0 ==> r == NatToString(i)
    ensures i < 0 ==> r == "-" + NatToString(-i)
  {
    if i < 0 then "-" + NatToString(-i) else NatToString(i)
  }

  predicate IsIntString(s: string) {
    || (|s| > 1 && s[0] == '-' && AllDigits(s[1..]))
    || (|s| > 0 && AllDigits(s))
  }

  /** Reads back an optionally signed numeral. */
  function ParseInt(s: string): int
    requires IsIntString(s)
  {
    if s[0] == '-' then -(DigitsValue(s[1..]) as int) else DigitsValue(s)
  }

  lemma ParseIntString(i: int)
    ensures IsIntString(IntToString(i))
    ensures ParseInt(IntToString(i)) == i
  {
    if i < 0 {
      assert ("-" + NatToString(-i))[1..] == NatToString(-i);
    }
  }

  /** Distinct integers render differently. */
  lemma IntToStringInjective(i: int, j: int)
    requires IntToString(i) == IntToString(j)
    ensures i == j
  {
    ParseIntString(i);
    ParseIntString(j);
  }

  /** A single decimal digit renders as that one digit. */
  lemma SmallIntToString(d: int)
    requires 0 <= d < 10
    ensures IntToString(d) == [DigitChar(d)]
  {
  }

  /** `s.includes(t)`. */
  predicate Contains(s: string, t: string)
    decreases |s|
  {
    t <= s || (|s| > 0 && Contains(s[1..], t))
  }

  /** `t` occurs in `s` starting at position `i`. */
  predicate OccursAt(s: string, t: string, i: int) {
    0 <= i <= |s| - |t| && s[i..i + |t|] == t
  }

  /** A slice of the tail is the slice of `s` one position later. */
  lemma SliceOfTail(s: string, i: nat, n: nat)
    requires 0 < |s| && i + n <= |s| - 1
    ensures s[1..][i..i + n] == s[i + 1..i + 1 + n]
  {
    var a := s[1..][i..i + n];
    var b := s[i + 1..i + 1 + n];
    assert |a| == |b| == n;
    forall k | 0 <= k < n
      ensures a[k] == b[k]
    {
      assert a[k] == s[1..][i + k] == s[i + 1 + k];
    }
  }

  /** Contains agrees with the definition of `includes`: `t` occurs in `s`
      at some position. */
  lemma {:induction false} ContainsIffOccurs(s: string, t: string)
    ensures Contains(s, t) <==> exists i :: OccursAt(s, t, i)
    decreases |s|
  {
    if Contains(s, t) {
      if t <= s {
        assert OccursAt(s, t, 0);
      } else {
        ContainsIffOccurs(s[1..], t);
        var i :| OccursAt(s[1..], t, i);
        SliceOfTail(s, i, |t|);
        assert OccursAt(s, t, i + 1);
      }
    }
    if exists i :: OccursAt(s, t, i) {
      var i :| OccursAt(s, t, i);
      if i == 0 {
        assert t <= s;
      } else {
        SliceOfTail(s, i - 1, |t|);
        assert OccursAt(s[1..], t, i - 1);
        ContainsIffOccurs(s[1..], t);
      }
    }
  }

  lemma ContainsEmpty(s: string)
    ensures Contains(s, "")
  {
  }

  /** Whatever contains `t + u` contains `t`. */
  lemma {:induction false} ContainsPrefix(s: string, t: string, u: string)
    requires Contains(s, t + u)
    ensures Contains(s, t)
    decreases |s|
  {
    if !(t + u <= s) {
      ContainsPrefix(s[1..], t, u);
    } else {
      assert s[..|t|] == (t + u)[..|t|] == t;
    }
  }


  /** `s.replace(/[^\d]/g, "")`: only the digits kept, in order. */
  function KeepDigits(s: string): (r: DigitString)
  {
    Seqs.Filter(s, IsDigit)
  }

  /** `parts.join(sep)`. */
  function Join(parts: seq<string>, sep: string): string
  {
    if |parts| == 0 then ""
    else if |parts| == 1 then parts[0]
    else parts[0] + sep + Join(parts[1..], sep)
  }

  /** `s.split(c)` for a one-character separator. */
  function Split(s: string, c: char): (r: seq<string>)
    ensures |r| > 0
  {
    if |s| == 0 then [""]
    else
      var rest := Split(s[1..], c);
      if s[0] == c then [""] + rest else [[s[0]] + rest[0]] + rest[1..]
  }

  lemma {:induction false} SplitWithoutSeparator(s: string, c: char)
    requires c !in s
    ensures Split(s, c) == [s]
    decreases |s|
  {
    if |s| > 0 {
      SplitWithoutSeparator(s[1..], c);
      assert [s[0]] + s[1..] == s;
    }
  }

  lemma {:induction false} SplitAfterPart(a: string, c: char, b: string)
    requires c !in a
    ensures Split(a + [c] + b, c) == [a] + Split(b, c)
    decreases |a|
  {
    if |a| == 0 {
      assert a + [c] + b == [c] + b;
      assert ([c] + b)[1..] == b;
    } else {
      var s := a + [c] + b;
      assert s[1..] == a[1..] + [c] + b;
      SplitAfterPart(a[1..], c, b);
      assert [a[0]] + a[1..] == a;
    }
  }

  /** Splitting a join on its separator recovers the parts, provided no part
      contains the separator. */
  lemma {:induction false} SplitJoin(parts: seq<string>, c: char)
    requires |parts| > 0
    requires forall i :: 0 <= i < |parts| ==> c !in parts[i]
    ensures Split(Join(parts, [c]), c) == parts
    decreases |parts|
  {
    if |parts| == 1 {
      SplitWithoutSeparator(parts[0], c);
    } else {
      SplitJoin(parts[1..], c);
      SplitAfterPart(parts[0], c, Join(parts[1..], [c]));
      assert [parts[0]] + parts[1..] == parts;
    }
  }

  /** `toLowerCase` on one character, for ASCII letters, the Latin-1 letters
      and every letter of the Vietnamese alphabet; other characters are kept. */
  function ToLowerChar(c: char): char
  {
    if 'A' <= c <= 'Z' then (c as int + 32) as char
    else if '\U{C0}' <= c <= '\U{DE}' && c != '\U{D7}' then (c as int + 32) as char
    else if c == 'Ă' || c == 'Đ' || c == 'Ĩ' || c == 'Ũ' || c == 'Ơ' then (c as int + 1) as char
    else if c == 'Ư' then 'ư'
    else if '\U{1EA0}' <= c <= '\U{1EF8}' && (c as int) % 2 == 0 then (c as int + 1) as char
    else c
  }

  /** `toUpperCase` on one character, over the same letters as ToLowerChar. */
  function ToUpperChar(c: char): char
  {
    if 'a' <= c <= 'z' then (c as int - 32) as char
    else if '\U{E0}' <= c <= '\U{FE}' && c != '\U{F7}' then (c as int - 32) as char
    else if c == 'ă' || c == 'đ' || c == 'ĩ' || c == 'ũ' || c == 'ơ' then (c as int - 1) as char
    else if c == 'ư' then 'Ư'
    else if '\U{1EA1}' <= c <= '\U{1EF9}' && (c as int) % 2 == 1 then (c as int - 1) as char
    else c
  }

  function ToLower(s: string): (r: string)
    ensures |r| == |s|
    ensures forall i :: 0 <= i < |s| ==> r[i] == ToLowerChar(s[i])
  {
    if |s| == 0 then "" else [ToLowerChar(s[0])] + ToLower(s[1..])
  }

  function ToUpper(s: string): (r: string)
    ensures |r| == |s|
    ensures forall i :: 0 <= i < |s| ==> r[i] == ToUpperChar(s[i])
  {
    if |s| == 0 then "" else [ToUpperChar(s[0])] + ToUpper(s[1..])
  }

  lemma ToLowerCharIdempotent(c: char)
    ensures ToLowerChar(ToLowerChar(c)) == ToLowerChar(c)
  {
  }

  /** Upper-casing loses nothing that lower-casing would keep. */
  lemma LowerOfUpperChar(c: char)
    ensures ToLowerChar(ToUpperChar(c)) == ToLowerChar(c)
  {
  }

  lemma ToLowerAppend(s: string, t: string)
    ensures ToLower(s + t) == ToLower(s) + ToLower(t)
  {
  }

  /** Lower-casing after upper-casing is lower-casing. */
  lemma LowerOfUpper(s: string)
    ensures ToLower(ToUpper(s)) == ToLower(s)
  {
    forall i | 0 <= i < |s| {
      LowerOfUpperChar(s[i]);
    }
  }

  lemma ToLowerIdempotent(s: string)
    ensures ToLower(ToLower(s)) == ToLower(s)
  {
    forall i | 0 <= i < |s| {
      ToLowerCharIdempotent(s[i]);
    }
  }
}
