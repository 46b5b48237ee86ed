/** String primitives the dashboard relies on: `toLowerCase` (ASCII letters),
    `includes`, and the decimal digits that `parseInt` reads and that a
    template literal prints for an integer. */
module Text {

  predicate IsUpper(c: char) {
    'A' <= c <= 'Z'
  }

  /** One character of `toLowerCase`, on the ASCII letters. */
  function LowerChar(c: char): (d: char)
    ensures !IsUpper(d)
    ensures !IsUpper(c) ==> d == c
    ensures IsUpper(c) ==> d as int == c as int - 'A' as int + 'a' as int
  {
    if IsUpper(c) then (c as int - 'A' as int + 'a' as int) as char else c
  }

  /** `s.toLowerCase()`: every upper-case letter replaced by its lower-case
      form, everything else kept, length unchanged. */
  function Lower(s: string): (r: string)
    ensures |r| == |s|
    ensures forall i :: 0 <= i < |s| ==> r[i] == LowerChar(s[i])
  {
    seq(|s|, i requires 0 <= i < |s| => LowerChar(s[i]))
  }

  /** No upper-case letter occurs in `s`. */
  predicate IsLowered(s: string) {
    forall i :: 0 <= i < |s| ==> !IsUpper(s[i])
  }

  /** Lower-casing leaves a string without upper-case letters unchanged, so
      it is idempotent. */
  lemma LowerFixesLowered(s: string)
    requires IsLowered(s)
    ensures Lower(s) == s
  {
    assert forall i :: 0 <= i < |s| ==> Lower(s)[i] == s[i];
  }

  lemma LowerIdempotent(s: string)
    ensures IsLowered(Lower(s))
    ensures Lower(Lower(s)) == Lower(s)
  {
    LowerFixesLowered(Lower(s));
  }

  /** Lower-casing commutes with taking a slice. */
  lemma LowerSlice(s: string, i: nat, j: nat)
    requires i <= j <= |s|
    ensures Lower(s)[i..j] == Lower(s[i..j])
  {
    var whole := Lower(s);
    var part := s[i..j];
    var lowered := Lower(part);
    forall k | 0 <= k < j - i
      ensures whole[i..j][k] == lowered[k]
    {
      assert whole[i + k] == LowerChar(s[i + k]);
      assert part[k] == s[i + k];
    }
    assert whole[i..j] == lowered;
  }

  /** `part` occurs in `s` starting at position `i`. */
  predicate OccursAt(s: string, part: string, i: int) {
    0 <= i && i + |part| <= |s| && s[i..i + |part|] == part
  }

  /** `s.includes(part)`, scanning `s` from the left. */
  predicate Contains(s: string, part: string)
    decreases |s|
  {
    |part| <= |s| && (s[..|part|] == part || Contains(s[1..], part))
  }

  /** The scan finds every occurrence. */
  lemma {:induction false} OccursContains(s: string, part: string, i: nat)
    requires OccursAt(s, part, i)
    ensures Contains(s, part)
    decreases i
  {
    if i > 0 {
      assert s[1..][i - 1..i - 1 + |part|] == s[i..i + |part|];
      OccursContains(s[1..], part, i - 1);
    }
  }

  /** What the scan finds is an occurrence. */
  lemma {:induction false} ContainsOccurs(s: string, part: string) returns (i: nat)
    requires Contains(s, part)
    ensures i <= |s| && OccursAt(s, part, i)
    decreases |s|
  {
    if s[..|part|] == part {
      i := 0;
    } else {
      var k := ContainsOccurs(s[1..], part);
      assert s[1..][k..k + |part|] == s[k + 1..k + 1 + |part|];
      i := k + 1;
    }
  }

  /** The scan finds `part` exactly when it occurs at some position. */
  lemma ContainsIffOccurs(s: string, part: string)
    ensures Contains(s, part) <==> exists i | 0 <= i <= |s| :: OccursAt(s, part, i)
  {
    if Contains(s, part) {
      var i := ContainsOccurs(s, part);
    }
    forall i | 0 <= i <= |s| && OccursAt(s, part, i)
      ensures Contains(s, part)
    {
      OccursContains(s, part, i);
    }
  }

  /** Witness form of `Contains`. */
  lemma ContainsAt(s: string, part: string, i: nat)
    requires OccursAt(s, part, i)
    ensures Contains(s, part)
  {
    OccursContains(s, part, i);
  }

  /** A string cannot contain a part one of whose characters it lacks. */
  lemma NotContainsMissingChar(s: string, part: string, j: nat)
    requires j < |part| && part[j] !in s
    ensures !Contains(s, part)
  {
    ContainsIffOccurs(s, part);
    forall i | 0 <= i <= |s|
      ensures !OccursAt(s, part, i)
    {
      if i + |part| <= |s| {
        assert s[i + j] == s[i..i + |part|][j];
      }
    }
  }

  /** Case-insensitive containment: an occurrence of `part` in `s` is an
      occurrence of the lowered `part` in the lowered `s`. */
  lemma ContainsLower(s: string, part: string)
    requires Contains(s, part)
    ensures Contains(Lower(s), Lower(part))
  {
    var i := ContainsOccurs(s, part);
    var j := i + |part|;
    assert s[i..j] == part;
    LowerSlice(s, i, j);
    assert |Lower(s)| == |s| && |Lower(part)| == |part|;
    assert Lower(s)[i..j] == Lower(part);
    OccursContains(Lower(s), Lower(part), i);
  }

  /** `s.split(sep)[0]`: the text before the first `sep`, or the whole
      string when there is none. */
  function TakeUntil(s: string, sep: char): (f: string)
    ensures |f| <= |s| && f == s[..|f|]
    ensures sep !in f
    ensures |f| < |s| ==> s[|f|] == sep
  {
    if s == [] || s[0] == sep then [] else [s[0]] + TakeUntil(s[1..], sep)
  }

  /** The text before the first `sep` does not look past it. */
  lemma {:induction false} TakeUntilAppend(a: string, b: string, sep: char)
    requires sep in a
    ensures TakeUntil(a + b, sep) == TakeUntil(a, sep)
  {
    if a[0] != sep {
      assert (a + b)[1..] == a[1..] + b;
      TakeUntilAppend(a[1..], b, sep);
    }
  }

  /** Text free of `sep` passes through whole, and the cut happens in what
      follows. */
  lemma {:induction false} TakeUntilSkip(a: string, b: string, sep: char)
    requires sep !in a
    ensures TakeUntil(a + b, sep) == a + TakeUntil(b, sep)
  {
    if a != [] {
      assert (a + b)[1..] == a[1..] + b;
      TakeUntilSkip(a[1..], b, sep);
      assert a == [a[0]] + a[1..];
    } else {
      assert a + b == b;
    }
  }

  /** Text without `sep` is its own prefix before `sep`. */
  lemma TakeUntilAbsent(s: string, sep: char)
    requires sep !in s
    ensures TakeUntil(s, sep) == s
  {
  }

  /** Text free of `sep` followed by `sep` is recovered whole. */
  lemma {:induction false} TakeUntilPrefix(a: string, b: string, sep: char)
    requires sep !in a && b != [] && b[0] == sep
    ensures TakeUntil(a + b, sep) == a
  {
    if a != [] {
      assert (a + b)[1..] == a[1..] + b;
      TakeUntilPrefix(a[1..], b, sep);
    }
  }

  /** The text after the last `sep`, or the whole string when there is
      none. */
  function AfterLast(s: string, sep: char): (f: string)
    ensures |f| <= |s| && f == s[|s| - |f|..]
    ensures sep !in f
    ensures |f| < |s| ==> s[|s| - |f| - 1] == sep
  {
    if s == [] || s[|s| - 1] == sep then [] else AfterLast(s[..|s| - 1], sep) + [s[|s| - 1]]
  }

  /** Whatever precedes the last `sep`, the text after it is recovered. */
  lemma {:induction false} AfterLastSuffix(a: string, b: string, sep: char)
    requires sep !in b
    ensures AfterLast(a + [sep] + b, sep) == b
    decreases |b|
  {
    if b != [] {
      var s := a + [sep] + b;
      assert s[..|s| - 1] == a + [sep] + b[..|b| - 1];
      AfterLastSuffix(a, b[..|b| - 1], sep);
    }
  }

  /** When `b` holds `sep`, what follows the last `sep` lies within `b`. */
  lemma {:induction false} AfterLastSkip(a: string, b: string, sep: char)
    requires sep in b
    ensures AfterLast(a + b, sep) == AfterLast(b, sep)
    decreases |b|
  {
    var s := a + b;
    if b[|b| - 1] != sep {
      var i :| 0 <= i < |b| && b[i] == sep;
      assert b[..|b| - 1][i] == sep;
      assert s[..|s| - 1] == a + b[..|b| - 1];
      AfterLastSkip(a, b[..|b| - 1], sep);
    }
  }

  predicate IsDigit(c: char) {
    '0' <= c <= '9'
  }

  predicate AllDigits(s: string) {
    forall i :: 0 <= i < |s| ==> IsDigit(s[i])
  }

  function DigitChar(d: nat): (c: char)
    requires d < 10
    ensures IsDigit(c) && c as int - '0' as int == d
  {
    ('0' as int + d) as char
  }

  /** The value of a string of decimal digits, most significant first. */
  function DecimalValue(ds: string): nat
    requires AllDigits(ds)
    decreases |ds|
  {
    if ds == [] then 0
    else DecimalValue(ds[..|ds| - 1]) * 10 + (ds[|ds| - 1] as int - '0' as int)
  }

  /** How JavaScript prints a non-negative integer: its decimal digits,
      without leading zeros. */
  function NatToDecimal(n: nat): (r: string)
    ensures 1 <= |r| && AllDigits(r)
    ensures |r| > 1 ==> r[0] != '0'
    ensures n < 10 <==> |r| == 1
  {
    if n < 10 then [DigitChar(n)] else NatToDecimal(n / 10) + [DigitChar(n % 10)]
  }

  /** Reading back what `NatToDecimal` printed gives the number. */
  lemma {:induction false} DecimalRoundTrip(n: nat)
    ensures DecimalValue(NatToDecimal(n)) == n
  {
    if n >= 10 {
      var r := NatToDecimal(n);
      assert r[..|r| - 1] == NatToDecimal(n / 10);
      DecimalRoundTrip(n / 10);
    }
  }

  /** How JavaScript prints an integer: a minus sign before the digits of a
      negative one. */
  function IntToDecimal(i: int): (r: string)
    ensures i >= 0 ==> r == NatToDecimal(i)
    ensures i < 0 ==> r == "-" + NatToDecimal(-i)
  {
    if i < 0 then "-" + NatToDecimal(-i) else NatToDecimal(i)
  }
}
