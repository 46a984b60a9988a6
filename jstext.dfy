/** The JavaScript string operations the models rely on, over Dafny
    strings: `split` on one character, `substring`, decimal digits as
    `Number()` reads them and as a template literal prints them, and the
    character-code sum the simulated integrations hash with. */
module JsText {
  import opened Common

  /** `s.split(sep)`: the pieces between occurrences of `sep`, always at
      least one (`"".split(" ")` is `[""]`). */
  function Split(s: string, sep: char): (parts: seq<string>)
    ensures |parts| >= 1
    ensures forall i :: 0 <= i < |parts| ==> sep !in parts[i]
    decreases |s|
  {
    if s == [] then [""]
    else if s[0] == sep then [""] + Split(s[1..], sep)
    else
      var rest := Split(s[1..], sep);
      [[s[0]] + rest[0]] + rest[1..]
  }

  /** `parts.join(sep)`. */
  function Join(parts: seq<string>, sep: char): string
    requires |parts| >= 1
    decreases |parts|
  {
    if |parts| == 1 then parts[0] else parts[0] + [sep] + Join(parts[1..], sep)
  }

  /** Splitting loses nothing: joining the pieces gives the string back. */
  lemma {:induction false} JoinSplit(s: string, sep: char)
    ensures Join(Split(s, sep), sep) == s
    decreases |s|
  {
    if s != [] {
      JoinSplit(s[1..], sep);
      var rest := Split(s[1..], sep);
      if s[0] == sep {
        assert Split(s, sep)[1..] == rest;
      } else {
        var parts := Split(s, sep);
        assert parts[0] == [s[0]] + rest[0];
        if |rest| == 1 {
          assert Join(parts, sep) == [s[0]] + rest[0];
        } else {
          assert parts[1..] == rest[1..];
          assert Join(rest, sep) == rest[0] + [sep] + Join(rest[1..], sep);
        }
      }
    }
  }

  /** `s.substring(start, end)`: both ends are clamped to [0, |s|] and
      swapped if they come in the wrong order. */
  function Substring(s: string, start: int, end: int): (t: string)
    ensures 0 <= start <= end <= |s| ==> t == s[start..end]
    ensures start >= |s| && end >= |s| ==> t == ""
    ensures |t| <= |s|
  {
    var a := Clamp(start, |s|);
    var b := Clamp(end, |s|);
    if a <= b then s[a..b] else s[b..a]
  }

  function Clamp(i: int, n: nat): (c: nat)
    ensures c <= n
  {
    if i < 0 then 0 else if i > n then n else i
  }

  predicate IsDigit(c: char)
  {
    '0' <= c <= '9'
  }

  predicate AllDigits(s: string)
  {
    forall i :: 0 <= i < |s| ==> IsDigit(s[i])
  }

  function DigitValue(c: char): nat
    requires IsDigit(c)
  {
    (c as int) - ('0' as int)
  }

  /** The value of a string of decimal digits (the empty string reads as 0). */
  function DigitsValue(s: string): nat
    requires AllDigits(s)
    decreases |s|
  {
    if s == [] then 0 else 10 * DigitsValue(s[..|s| - 1]) + DigitValue(s[|s| - 1])
  }

  /** `Number(s)` for the forms a clock field takes: a string of decimal
      digits, the empty string being 0; anything else is NaN (None). */
  function NumberOf(s: string): (n: Option<int>)
    ensures n.Some? <==> AllDigits(s)
    ensures n.Some? ==> n.value >= 0
  {
    if AllDigits(s) then Some(DigitsValue(s)) else None
  }

  /** A natural number as a template literal prints it. */
  function NatToString(n: nat): (s: string)
    ensures |s| >= 1 && AllDigits(s)
    decreases n
  {
    if n < 10 then [Digit(n)] else NatToString(n / 10) + [Digit(n % 10)]
  }

  function Digit(d: nat): (c: char)
    requires d < 10
    ensures IsDigit(c) && DigitValue(c) == d
  {
    ('0' as int + d) as char
  }

  /** Printing a number and reading it back gives the number. */
  lemma {:induction false} NumberOfNatToString(n: nat)
    ensures NumberOf(NatToString(n)) == Some(n)
    decreases n
  {
    var s := NatToString(n);
    if n < 10 {
      assert s[..0] == [];
      assert DigitsValue(s) == 10 * DigitsValue([]) + DigitValue(s[0]);
    } else {
      NumberOfNatToString(n / 10);
      assert s[..|s| - 1] == NatToString(n / 10);
      assert DigitsValue(s) == 10 * (n / 10) + n % 10;
    }
  }

  /** Printed numbers are distinct for distinct numbers. */
  lemma NatToStringInjective(m: nat, n: nat)
    requires NatToString(m) == NatToString(n)
    ensures m == n
  {
    NumberOfNatToString(m);
    NumberOfNatToString(n);
  }

  /** The sum of the character codes, accumulated left to right as
      `s.split("").reduce((a, b) => a + b.charCodeAt(0), 0)` does. */
  function CharCodeSum(s: string): nat
    decreases |s|
  {
    if s == [] then 0 else CharCodeSum(s[..|s| - 1]) + (s[|s| - 1] as int)
  }

  /** The hash of a concatenation is the sum of the hashes. */
  lemma {:induction false} CharCodeSumAppend(a: string, b: string)
    ensures CharCodeSum(a + b) == CharCodeSum(a) + CharCodeSum(b)
    decreases |b|
  {
    if b != [] {
      CharCodeSumAppend(a, b[..|b| - 1]);
      assert (a + b)[..|a + b| - 1] == a + b[..|b| - 1];
    } else {
      assert a + b == a;
    }
  }
}
