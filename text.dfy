/**
 * The string and integer conversions the tool relies on from Go's standard
 * library: substring tests, strings.Replace with an empty replacement,
 * strings.Split on one character, strconv.Itoa and strconv.Atoi.
 */
module Text {
  import opened Types

  /** `sub` occurs in `s` at position `i`. */
  predicate HasAt(s: string, i: int, sub: string) {
    0 <= i && i + |sub| <= |s| && s[i..i + |sub|] == sub
  }

  /** strings.Contains. */
  predicate Contains(s: string, sub: string) {
    exists i :: 0 <= i <= |s| - |sub| && HasAt(s, i, sub)
  }

  /** strings.Replace(s, pat, "", -1): drop every non-overlapping occurrence, scanning left to right. */
  function RemoveAll(s: string, pat: string): (r: string)
    requires |pat| > 0
    ensures |r| <= |s|
    decreases |s|
  {
    if |s| < |pat| then s
    else if s[..|pat|] == pat then RemoveAll(s[|pat|..], pat)
    else [s[0]] + RemoveAll(s[1..], pat)
  }

  /** Text without the first character of the pattern is left as it is. */
  lemma {:induction false} RemoveAllUntouched(s: string, pat: string)
    requires |pat| > 0 && pat[0] !in s
    ensures RemoveAll(s, pat) == s
    decreases |s|
  {
    if |s| >= |pat| {
      assert s[..|pat|][0] == s[0];
      assert s[..|pat|] != pat;
      RemoveAllUntouched(s[1..], pat);
      assert [s[0]] + s[1..] == s;
    }
  }

  /** Removing a one-character pattern works piece by piece. */
  lemma {:induction false} RemoveAllCharConcat(a: string, b: string, c: char)
    ensures RemoveAll(a + b, [c]) == RemoveAll(a, [c]) + RemoveAll(b, [c])
    decreases |a|
  {
    if a != [] {
      assert (a + b)[1..] == a[1..] + b;
      assert (a + b)[..1] == a[..1];
      RemoveAllCharConcat(a[1..], b, c);
    } else {
      assert a + b == b;
    }
  }

  /** Text that cannot start the pattern passes through unchanged ahead of the rest. */
  lemma {:induction false} RemoveAllKeepsHead(a: string, b: string, pat: string)
    requires |pat| > 0 && pat[0] !in a
    ensures RemoveAll(a + b, pat) == a + RemoveAll(b, pat)
    decreases |a|
  {
    var s := a + b;
    if a == [] {
      assert s == b;
    } else if |s| < |pat| {
      assert RemoveAll(b, pat) == b;
    } else {
      assert s[..|pat|][0] == a[0] != pat[0];
      assert RemoveAll(s, pat) == [a[0]] + RemoveAll(s[1..], pat);
      assert s[1..] == a[1..] + b;
      RemoveAllKeepsHead(a[1..], b, pat);
      assert [a[0]] + a[1..] == a;
    }
  }

  /** The strings of a sequence, one after the other. */
  function Flatten(ss: seq<string>): (r: string)
    ensures ss == [] ==> r == ""
    decreases |ss|
  {
    if ss == [] then "" else ss[0] + Flatten(ss[1..])
  }

  /** Every occurrence of a one-character pattern is gone. */
  lemma {:induction false} RemoveAllCharGone(s: string, c: char)
    ensures c !in RemoveAll(s, [c])
    decreases |s|
  {
    if s != [] {
      RemoveAllCharGone(s[1..], c);
      if s[..1] != [c] {
        assert s[0] != c;
      }
    }
  }

  /** strings.Split(s, string(sep)): the empty string gives one empty part. */
  function Split(s: string, sep: char): (parts: seq<string>)
    ensures |parts| >= 1
    decreases |s|
  {
    if s == [] then [""]
    else if s[0] == sep then [""] + Split(s[1..], sep)
    else
      var rest := Split(s[1..], sep);
      [[s[0]] + rest[0]] + rest[1..]
  }

  /** strings.Join, the inverse of Split. */
  function Join(parts: seq<string>, sep: char): string
    requires |parts| >= 1
    decreases |parts|
  {
    if |parts| == 1 then parts[0] else parts[0] + [sep] + Join(parts[1..], sep)
  }

  /** Joining the parts of a split gives back the text. */
  lemma {:induction false} JoinSplit(s: string, sep: char)
    ensures Join(Split(s, sep), sep) == s
    decreases |s|
  {
    if s == [] {
    } else if s[0] == sep {
      JoinSplit(s[1..], sep);
      assert [""] + Split(s[1..], sep) == [""] + Split(s[1..], sep);
      assert ([""] + Split(s[1..], sep))[1..] == Split(s[1..], sep);
      assert [sep] + s[1..] == s;
    } else {
      var rest := Split(s[1..], sep);
      JoinSplit(s[1..], sep);
      var parts := [[s[0]] + rest[0]] + rest[1..];
      assert parts[1..] == rest[1..];
      if |rest| == 1 {
        assert [s[0]] + s[1..] == s;
      } else {
        assert Join(rest, sep) == rest[0] + [sep] + Join(rest[1..], sep);
        assert [s[0]] + s[1..] == s;
      }
    }
  }

  /** No part of a split contains the separator. */
  lemma {:induction false} SplitPartsHaveNoSep(s: string, sep: char)
    ensures forall k :: 0 <= k < |Split(s, sep)| ==> sep !in Split(s, sep)[k]
    decreases |s|
  {
    if s != [] {
      SplitPartsHaveNoSep(s[1..], sep);
      if s[0] != sep {
        var rest := Split(s[1..], sep);
        assert sep !in rest[0];
        assert sep !in [s[0]] + rest[0];
      }
    }
  }

  /** Splitting a join of separator-free parts gives back the parts. */
  lemma {:induction false} SplitJoin(parts: seq<string>, sep: char)
    requires |parts| >= 1
    requires forall k :: 0 <= k < |parts| ==> sep !in parts[k]
    ensures Split(Join(parts, sep), sep) == parts
    decreases |parts|, |parts[0]|
  {
    if parts[0] == [] {
      if |parts| > 1 {
        SplitJoin(parts[1..], sep);
        assert Join(parts, sep) == [sep] + Join(parts[1..], sep);
        assert [""] + parts[1..] == parts;
      }
    } else {
      var p := parts[0];
      var tail := [p[1..]] + parts[1..];
      assert p[1..] + [] == p[1..];
      assert forall k :: 0 <= k < |tail| ==> sep !in tail[k] by {
        forall k | 0 <= k < |tail| ensures sep !in tail[k] {
          if k > 0 { assert tail[k] == parts[k]; }
        }
      }
      SplitJoin(tail, sep);
      assert p[0] != sep by { assert p[0] in p; }
      if |parts| == 1 {
        assert Join(parts, sep) == p;
        assert Join(tail, sep) == p[1..];
        assert [p[0]] + p[1..] == p;
      } else {
        assert tail[1..] == parts[1..];
        assert Join(tail, sep) == p[1..] + [sep] + Join(parts[1..], sep);
        assert Join(parts, sep) == [p[0]] + Join(tail, sep);
        assert Join(parts, sep)[1..] == Join(tail, sep);
        assert [p[0]] + p[1..] == p;
      }
    }
  }

  const MaxInt: int := 0x7fff_ffff_ffff_ffff
  const MinInt: int := -0x8000_0000_0000_0000

  predicate IsDigit(c: char) { '0' <= c <= '9' }

  predicate AllDigits(s: string) { forall k :: 0 <= k < |s| ==> IsDigit(s[k]) }

  function DigitChar(d: nat): (c: char)
    requires d < 10
    ensures IsDigit(c) && c as int - '0' as int == d
  {
    ('0' as int + d) as char
  }

  /** The decimal digits of a natural number, most significant first, without leading zeros. */
  function NatToDecimal(n: nat): (s: string)
    ensures |s| >= 1 && AllDigits(s)
    decreases n
  {
    if n < 10 then [DigitChar(n)] else NatToDecimal(n / 10) + [DigitChar(n % 10)]
  }

  /** strconv.Itoa. */
  function Itoa(n: int): string {
    if n < 0 then "-" + NatToDecimal(-n) else NatToDecimal(n)
  }

  /** The number a string of decimal digits denotes. */
  function DecimalValue(s: string): nat
    requires AllDigits(s)
    decreases |s|
  {
    if s == [] then 0 else DecimalValue(s[..|s| - 1]) * 10 + (s[|s| - 1] as int - '0' as int)
  }

  /** The outcome of strconv.Atoi: the value it returns and its error, if any. */
  datatype Conv = Conv(value: int, err: Option<Error>)

  /**
   * strconv.Atoi on a 64-bit platform: an optional sign, then one or more
   * decimal digits. A syntax error returns 0; an out-of-range value returns
   * the nearest 64-bit bound with a range error.
   */
  function Atoi(s: string): (r: Conv)
    ensures r.err.None? ==> MinInt <= r.value <= MaxInt
    ensures r.err == Some(Syntax(s)) ==> r.value == 0
  {
    var neg := |s| > 0 && s[0] == '-';
    var digits := if |s| > 0 && (s[0] == '+' || s[0] == '-') then s[1..] else s;
    if digits == [] || !AllDigits(digits) then Conv(0, Some(Syntax(s)))
    else
      var v: int := DecimalValue(digits);
      var n := if neg then -v else v;
      if n > MaxInt then Conv(MaxInt, Some(OutOfRange(s)))
      else if n < MinInt then Conv(MinInt, Some(OutOfRange(s)))
      else Conv(n, None)
  }

  lemma {:induction false} DecimalValueOfNat(n: nat)
    ensures DecimalValue(NatToDecimal(n)) == n
    decreases n
  {
    if n >= 10 {
      var s := NatToDecimal(n);
      DecimalValueOfNat(n / 10);
      assert s[..|s| - 1] == NatToDecimal(n / 10);
    }
  }

  /** Atoi reads back what Itoa writes, for every 64-bit integer. */
  lemma AtoiItoa(n: int)
    requires MinInt <= n <= MaxInt
    ensures Atoi(Itoa(n)) == Conv(n, None)
  {
    var s := Itoa(n);
    if n < 0 {
      DecimalValueOfNat(-n);
      assert s[1..] == NatToDecimal(-n);
    } else {
      DecimalValueOfNat(n);
      assert IsDigit(s[0]);
    }
  }

  /** Distinct integers have distinct decimal texts. */
  lemma ItoaInjective(m: int, n: int)
    requires MinInt <= m <= MaxInt && MinInt <= n <= MaxInt
    requires Itoa(m) == Itoa(n)
    ensures m == n
  {
    AtoiItoa(m);
    AtoiItoa(n);
  }

  /** The empty string is not a number: a missing header fails to convert. */
  lemma AtoiEmpty()
    ensures Atoi("") == Conv(0, Some(Syntax("")))
  {
  }
}
