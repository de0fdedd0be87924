/**
 * The two pieces of JavaScript string behaviour the notification messages rely on:
 * a number interpolated into a template literal (its shortest decimal numeral) and
 * `Array.prototype.join(', ')`, together with the inverses that show nothing is lost.
 */
module Text {

  predicate IsDigit(c: char) {
    '0' <= c <= '9'
  }

  predicate AllDigits(s: string) {
    forall i :: 0 <= i < |s| ==> IsDigit(s[i])
  }

  function DigitChar(d: nat): (c: char)
    requires d < 10
    ensures IsDigit(c)
  {
    (48 + d) as char
  }

  function DigitValue(c: char): (d: nat)
    requires IsDigit(c)
    ensures d < 10
  {
    c as int - 48
  }

  /** The decimal numeral JavaScript writes for `${n}` when n is a non-negative integer. */
  function NatToString(n: nat): (s: string)
    ensures |s| > 0 && AllDigits(s)
    ensures |s| > 1 ==> s[0] != '0'
    decreases n
  {
    if n < 10 then [DigitChar(n)] else NatToString(n / 10) + [DigitChar(n % 10)]
  }

  /** The value of a decimal numeral, read most significant digit first. */
  function DigitsToNat(s: string): nat
    requires AllDigits(s)
    decreases |s|
  {
    if |s| == 0 then 0 else DigitsToNat(s[..|s| - 1]) * 10 + DigitValue(s[|s| - 1])
  }

  /** Reading back the numeral gives the number: the count in a headline is exact. */
  lemma {:induction false} NumeralRoundTrip(n: nat)
    ensures DigitsToNat(NatToString(n)) == n
    decreases n
  {
    if n >= 10 {
      var p := NatToString(n / 10);
      var s := p + [DigitChar(n % 10)];
      assert s[..|s| - 1] == p;
      NumeralRoundTrip(n / 10);
    }
  }

  lemma NumeralInjective(n: nat, m: nat)
    requires NatToString(n) == NatToString(m)
    ensures n == m
  {
    NumeralRoundTrip(n);
    NumeralRoundTrip(m);
  }

  /**
   * Two digit runs each followed by a space agree when the strings agree: the space
   * marks where the numeral ends.
   */
  lemma NumeralPrefixUnique(a: string, x: string, b: string, y: string)
    requires AllDigits(a) && AllDigits(b)
    requires a + " " + x == b + " " + y
    ensures a == b
  {
    var l := a + " " + x;
    var r := b + " " + y;
    LeadingDigitsOfNumeral(a, x);
    LeadingDigitsOfNumeral(b, y);
    assert a == l[..|a|] && b == r[..|b|];
  }

  /** How many digits a string starts with. */
  function LeadingDigits(s: string): (k: nat)
    ensures k <= |s|
    decreases |s|
  {
    if |s| == 0 || !IsDigit(s[0]) then 0 else 1 + LeadingDigits(s[1..])
  }

  lemma {:induction false} LeadingDigitsOfNumeral(a: string, x: string)
    requires AllDigits(a)
    ensures LeadingDigits(a + " " + x) == |a|
    decreases |a|
  {
    if |a| > 0 {
      assert (a + " " + x)[1..] == a[1..] + " " + x;
      LeadingDigitsOfNumeral(a[1..], x);
    } else {
      assert a + " " + x == " " + x;
    }
  }

  predicate NoComma(s: string) {
    forall i :: 0 <= i < |s| ==> s[i] != ','
  }

  /** `parts.join(', ')`: no separator for zero or one part. */
  function Join(parts: seq<string>): (s: string)
    ensures |parts| == 1 ==> s == parts[0]
    decreases |parts|
  {
    if |parts| == 0 then ""
    else if |parts| == 1 then parts[0]
    else parts[0] + ", " + Join(parts[1..])
  }

  /** Cuts a string at every ", ": the reading a user makes of a notification body. */
  function Split(s: string): (parts: seq<string>)
    ensures |parts| > 0
    decreases |s|
  {
    if |s| == 0 then [""]
    else if |s| >= 2 && s[0] == ',' && s[1] == ' ' then [""] + Split(s[2..])
    else
      var rest := Split(s[1..]);
      [[s[0]] + rest[0]] + rest[1..]
  }

  lemma {:induction false} SplitAfterPlain(t: string, s: string)
    requires NoComma(t)
    ensures Split(t + s) == [t + Split(s)[0]] + Split(s)[1..]
    decreases |t|
  {
    if |t| > 0 {
      assert (t + s)[1..] == t[1..] + s;
      assert (t + s)[0] == t[0];
      SplitAfterPlain(t[1..], s);
      assert [t[0]] + (t[1..] + Split(s)[0]) == t + Split(s)[0];
    } else {
      assert t + s == s && t + Split(s)[0] == Split(s)[0];
      assert Split(s) == [Split(s)[0]] + Split(s)[1..];
    }
  }

  lemma SplitAfterSeparator(s: string)
    ensures Split(", " + s) == [""] + Split(s)
  {
    assert (", " + s)[2..] == s;
  }

  /**
   * Splitting a joined list at ", " gives back the list, as long as no part holds a comma:
   * the body of a notification names exactly the titles it was built from, in order.
   */
  lemma {:induction false} SplitJoin(parts: seq<string>)
    requires |parts| > 0
    requires forall i :: 0 <= i < |parts| ==> NoComma(parts[i])
    ensures Split(Join(parts)) == parts
    decreases |parts|
  {
    if |parts| == 1 {
      SplitAfterPlain(parts[0], "");
      assert parts[0] + "" == parts[0];
    } else {
      var rest := Join(parts[1..]);
      assert Join(parts) == parts[0] + (", " + rest);
      SplitAfterPlain(parts[0], ", " + rest);
      SplitAfterSeparator(rest);
      SplitJoin(parts[1..]);
      var tail := Split(", " + rest);
      assert tail[0] == "" && tail[1..] == parts[1..];
      assert parts[0] + "" == parts[0];
      assert [parts[0]] + parts[1..] == parts;
    }
  }

  /** The joined text is as long as the parts plus one two-character separator between each pair. */
  lemma {:induction false} JoinLength(parts: seq<string>)
    requires |parts| > 0
    ensures |Join(parts)| == TotalLength(parts) + 2 * (|parts| - 1)
    decreases |parts|
  {
    if |parts| > 1 {
      JoinLength(parts[1..]);
    }
  }

  function TotalLength(parts: seq<string>): nat
    decreases |parts|
  {
    if |parts| == 0 then 0 else |parts[0]| + TotalLength(parts[1..])
  }
}
