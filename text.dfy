/**
 * The few JavaScript string operations the invoice uses: `String(n)` for integers,
 * `padStart`, `slice(-k)` and `replace` with a string pattern (first occurrence only),
 * together with a decimal reader used to state round trips.
 */
module Text {
  import opened Wrappers

  predicate IsDigit(c: char) {
    '0' <= c <= '9'
  }

  predicate AllDigits(s: string) {
    forall i :: 0 <= i < |s| ==> IsDigit(s[i])
  }

  lemma AllDigitsAppend(a: string, b: string)
    requires AllDigits(a) && AllDigits(b)
    ensures AllDigits(a + b)
  {
    forall i | 0 <= i < |a + b|
      ensures IsDigit((a + b)[i])
    {
      if i >= |a| {
        assert (a + b)[i] == b[i - |a|];
      }
    }
  }

  lemma AllDigitsJoin3(a: string, b: string, c: string)
    requires AllDigits(a) && AllDigits(b) && AllDigits(c)
    ensures AllDigits(a + b + c)
  {
    AllDigitsAppend(a, b);
    AllDigitsAppend(a + b, c);
  }

  function Digit(n: nat): (c: char)
    requires n < 10
    ensures IsDigit(c)
  {
    ('0' as int + n) as char
  }

  function DigitValue(c: char): nat {
    if IsDigit(c) then (c as int - '0' as int) as nat else 0
  }

  /** `String(n)` for a non-negative integer: decimal, no leading zeros. */
  function NatToString(n: nat): (s: string)
    ensures 1 <= |s| && AllDigits(s)
    ensures s[|s| - 1] == Digit(n % 10)
    decreases n
  {
    if n < 10 then [Digit(n)] else NatToString(n / 10) + [Digit(n % 10)]
  }

  /** `String(i)` for any integer: a minus sign before the digits of a negative number. */
  function IntToString(i: int): string {
    if i < 0 then "-" + NatToString(-i) else NatToString(i)
  }

  /** Reads a string of decimal digits back into the number it denotes. */
  function ParseNat(s: string): nat
    decreases |s|
  {
    if s == [] then 0 else 10 * ParseNat(s[..|s| - 1]) + DigitValue(s[|s| - 1])
  }

  function ParseInt(s: string): int {
    if |s| > 0 && s[0] == '-' then -(ParseNat(s[1..]) as int) else ParseNat(s)
  }

  lemma {:induction false} ParseNatToString(n: nat)
    ensures ParseNat(NatToString(n)) == n
    decreases n
  {
    var s := NatToString(n);
    if n >= 10 {
      ParseNatToString(n / 10);
      assert s[..|s| - 1] == NatToString(n / 10);
    }
  }

  /** `String(i)` is read back as i, so distinct integers print differently. */
  lemma ParseIntToString(i: int)
    ensures ParseInt(IntToString(i)) == i
  {
    if i < 0 {
      ParseNatToString(-i);
      assert IntToString(i)[1..] == NatToString(-i);
    } else {
      ParseNatToString(i);
    }
  }

  lemma NatToStringLength4(n: nat)
    requires 1000 <= n < 10000
    ensures |NatToString(n)| == 4
  {
    var a := n / 10;
    var b := a / 10;
    var c := b / 10;
    assert 100 <= a < 1000 && 10 <= b < 100 && 1 <= c < 10;
    assert |NatToString(c)| == 1;
    assert |NatToString(b)| == 2;
    assert |NatToString(a)| == 3;
  }

  function Repeat(c: char, k: nat): (r: string)
    ensures |r| == k && forall i :: 0 <= i < k ==> r[i] == c
  {
    if k == 0 then [] else [c] + Repeat(c, k - 1)
  }

  /** `s.padStart(width, c)` with a one-character filler. */
  function PadStart(s: string, width: nat, c: char): string {
    if |s| >= width then s else Repeat(c, width - |s|) + s
  }

  /** `String(n).padStart(2, "0")`. */
  function Pad2(n: nat): string {
    PadStart(NatToString(n), 2, '0')
  }

  lemma ParseTwoDigits(a: char, b: char)
    ensures ParseNat([a, b]) == 10 * DigitValue(a) + DigitValue(b)
  {
    assert [a][..0] == [];
    assert ParseNat([a]) == DigitValue(a);
    assert [a, b][..1] == [a];
  }

  /** Below 100, two-digit padding writes the tens digit (0 below 10) and the units digit. */
  lemma Pad2Digits(n: nat)
    requires n < 100
    ensures Pad2(n) == [Digit(n / 10), Digit(n % 10)]
  {
    if n < 10 {
      assert NatToString(n) == [Digit(n)];
      assert Repeat('0', 1) == ['0'];
    } else {
      assert NatToString(n / 10) == [Digit(n / 10)];
    }
  }

  lemma ParsePad2Large(n: nat)
    requires 10 <= n < 100
    ensures ParseNat(Pad2(n)) == n
  {
    Pad2Digits(n);
    var hi, lo := n / 10, n % 10;
    assert n == 10 * hi + lo;
    assert DigitValue(Digit(hi)) == hi && DigitValue(Digit(lo)) == lo;
    ParseTwoDigits(Digit(hi), Digit(lo));
  }

  /** Two-digit padding of a number below 100 is exactly two digits and reads back as the number. */
  lemma Pad2RoundTrip(n: nat)
    requires n < 100
    ensures |Pad2(n)| == 2 && AllDigits(Pad2(n)) && ParseNat(Pad2(n)) == n
  {
    Pad2Digits(n);
    if n < 10 {
      assert n / 10 == 0 && n % 10 == n && Digit(0) == '0';
      ParseTwoDigits('0', Digit(n));
    } else {
      ParsePad2Large(n);
    }
  }

  /** `s.slice(-k)` for k >= 1: the last k characters, or all of s when it is shorter (`slice(-0)` keeps all of s). */
  function SliceLast(s: string, k: nat): string
    requires k > 0
  {
    if |s| < k then s else s[|s| - k..]
  }

  lemma TwoDigitSplit(n: nat)
    ensures (n % 100) / 10 == (n / 10) % 10 && (n % 100) % 10 == n % 10
  {
    var q, t := n / 100, n % 100;
    assert n == 100 * q + t;
    assert n / 10 == 10 * q + t / 10;
  }

  /** The last two characters of `String(n)` for n >= 10 are its tens and units digits. */
  lemma LastTwoChars(n: nat)
    requires n >= 10
    ensures SliceLast(NatToString(n), 2) == [Digit((n / 10) % 10), Digit(n % 10)]
  {
    var head := NatToString(n / 10);
    assert NatToString(n) == head + [Digit(n % 10)];
    assert head[|head| - 1] == Digit((n / 10) % 10);
  }

  /** The last two characters of a number's decimal form, for numbers of two or more digits. */
  lemma LastTwoDigits(n: nat)
    requires n >= 10
    ensures SliceLast(NatToString(n), 2) == Pad2(n % 100)
  {
    LastTwoChars(n);
    TwoDigitSplit(n);
    Pad2Digits(n % 100);
  }

  predicate OccursAt(s: string, p: string, i: int) {
    0 <= i && i + |p| <= |s| && s[i..i + |p|] == p
  }

  /** i is where p first occurs in s. */
  predicate FirstOccurrence(s: string, p: string, i: int) {
    OccursAt(s, p, i) && forall j :: 0 <= j < i ==> !OccursAt(s, p, j)
  }

  /** The first position at or after `from` where p occurs in s. */
  function FindFrom(s: string, p: string, from: nat): (r: Option<nat>)
    requires forall j :: 0 <= j < from ==> !OccursAt(s, p, j)
    ensures r.Some? ==> FirstOccurrence(s, p, r.value)
    ensures r.None? ==> forall j :: 0 <= j ==> !OccursAt(s, p, j)
    decreases |s| - from
  {
    if from + |p| > |s| then None
    else if s[from..from + |p|] == p then Some(from)
    else FindFrom(s, p, from + 1)
  }

  /** `s.indexOf(p)`, with None for -1. */
  function IndexOf(s: string, p: string): (r: Option<nat>)
    ensures r.Some? ==> FirstOccurrence(s, p, r.value)
    ensures r.None? ==> forall j :: 0 <= j ==> !OccursAt(s, p, j)
  {
    FindFrom(s, p, 0)
  }

  /** `s.replace(p, q)` with a string pattern: only the first occurrence of p is replaced. */
  function ReplaceFirst(s: string, p: string, q: string): string {
    match IndexOf(s, p)
    case None => s
    case Some(i) => s[..i] + q + s[i + |p|..]
  }

  /**
   * `replace` leaves a string without the pattern alone, and otherwise swaps the first
   * occurrence of the pattern, and only that one, for the replacement.
   */
  lemma ReplaceFirstSpec(s: string, p: string, q: string)
    ensures (forall j :: 0 <= j ==> !OccursAt(s, p, j)) ==> ReplaceFirst(s, p, q) == s
    ensures forall i :: FirstOccurrence(s, p, i) ==> ReplaceFirst(s, p, q) == s[..i] + q + s[i + |p|..]
  {
  }

  /** Replacing a pattern that the string starts with removes it from the front only. */
  lemma ReplaceLeading(p: string, rest: string, q: string)
    ensures ReplaceFirst(p + rest, p, q) == q + rest
  {
    var s := p + rest;
    assert s[0..|p|] == p;
    assert IndexOf(s, p) == Some(0);
    assert s[..0] == [] && s[|p|..] == rest;
  }

  /** A string that lacks the pattern's first character has no occurrence of the pattern. */
  lemma NoOccurrenceWithoutFirstChar(s: string, p: string)
    requires |p| > 0 && forall k :: 0 <= k < |s| ==> s[k] != p[0]
    ensures forall j :: 0 <= j ==> !OccursAt(s, p, j)
  {
    forall j | 0 <= j
      ensures !OccursAt(s, p, j)
    {
      if j + |p| <= |s| {
        assert s[j..j + |p|][0] == s[j];
      }
    }
  }
}
