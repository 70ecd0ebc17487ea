/** Decimal numerals, and splitting and joining at dots, with their inverses. */
module Strings {
  import opened Prelude

  // ---------- decimal numerals ----------

  predicate IsDigit(c: char) {
    '0' <= c <= '9'
  }

  predicate AllDigits(s: string) {
    forall i :: 0 <= i < |s| ==> IsDigit(s[i])
  }

  /** `0|[1-9]\d*`. */
  predicate IsNumeral(s: string) {
    s != "" && AllDigits(s) && (s[0] == '0' ==> s == "0")
  }

  function DigitChar(d: nat): (c: char)
    requires d < 10
    ensures IsDigit(c) && DigitValue(c) == d
  {
    ('0' as int + d) as char
  }

  function DigitValue(c: char): (d: nat)
    requires IsDigit(c)
    ensures d < 10
  {
    c as int - '0' as int
  }

  function Digits(n: nat): string {
    if n < 10 then [DigitChar(n)] else Digits(n / 10) + [DigitChar(n % 10)]
  }

  function Number(s: string): nat
    requires AllDigits(s)
  {
    if s == "" then 0 else 10 * Number(s[..|s| - 1]) + DigitValue(s[|s| - 1])
  }

  /** Printing a number and reading it back. */
  lemma {:induction false} NumberOfDigits(n: nat)
    ensures IsNumeral(Digits(n)) && Number(Digits(n)) == n
    ensures n > 0 ==> Digits(n)[0] != '0'
  {
    if n >= 10 {
      NumberOfDigits(n / 10);
      var s, t := Digits(n), Digits(n / 10);
      assert s[..|s| - 1] == t && s[0] == t[0];
    } else {
      assert Digits(n)[..0] == "";
    }
  }

  /** Reading a numeral and printing it again: no leading zero is lost because none is allowed. */
  lemma {:induction false} DigitsOfNumber(s: string)
    requires IsNumeral(s)
    ensures Digits(Number(s)) == s
    ensures s[0] != '0' ==> Number(s) > 0
  {
    var t := s[..|s| - 1];
    if |s| == 1 {
      assert Number(t) == 0;
    } else {
      assert IsNumeral(t) && t[0] == s[0];
      DigitsOfNumber(t);
      assert Number(s) / 10 == Number(t);
      assert s == t + [s[|s| - 1]];
    }
  }

  // ---------- dotted lists ----------

  /** The position of the first c, or the length. */
  function Index(s: string, c: char): (i: nat)
    ensures i <= |s| && c !in s[..i] && (i < |s| ==> s[i] == c)
  {
    if s == "" || s[0] == c then 0
    else
      var i := Index(s[1..], c) + 1;
      assert s[..i] == [s[0]] + s[1..][..i - 1];
      i
  }

  function Before(s: string, c: char): string {
    s[..Index(s, c)]
  }

  /** What follows the first c, if there is one. */
  function Rest(s: string, c: char): Option<string> {
    var i := Index(s, c);
    if i < |s| then Some(s[i + 1..]) else None
  }

  lemma IndexUnique(s: string, c: char, i: nat)
    requires i <= |s| && c !in s[..i] && (i < |s| ==> s[i] == c)
    ensures Index(s, c) == i
  {
  }

  /** Cutting at the first c undoes putting a c between. */
  lemma CutAt(a: string, c: char, b: string)
    requires c !in a
    ensures Before(a + [c] + b, c) == a && Rest(a + [c] + b, c) == Some(b)
  {
    var s := a + [c] + b;
    assert s[..|a|] == a && s[|a| + 1..] == b;
    IndexUnique(s, c, |a|);
  }

  lemma CutNothing(a: string, c: char)
    requires c !in a
    ensures Before(a, c) == a && Rest(a, c) == None
  {
  }

  lemma CutBack(s: string, c: char)
    ensures c !in Before(s, c)
    ensures s == match Rest(s, c) case None => Before(s, c) case Some(r) => Before(s, c) + [c] + r
  {
  }

  /** `s.split(".")`. */
  function Split(s: string): (parts: seq<string>)
    ensures parts != []
    decreases |s|
  {
    match Rest(s, '.')
    case None => [s]
    case Some(r) => [Before(s, '.')] + Split(r)
  }

  /** `".".join(parts)`. */
  function Join(parts: seq<string>): string
    requires parts != []
  {
    if |parts| == 1 then parts[0] else parts[0] + "." + Join(parts[1..])
  }

  predicate NoDots(parts: seq<string>) {
    forall i :: 0 <= i < |parts| ==> '.' !in parts[i]
  }

  lemma {:induction false} JoinOfSplit(s: string)
    ensures NoDots(Split(s)) && Join(Split(s)) == s
    decreases |s|
  {
    CutBack(s, '.');
    if Rest(s, '.').Some? {
      var r := Rest(s, '.').value;
      JoinOfSplit(r);
      assert Split(s)[1..] == Split(r);
    }
  }

  lemma {:induction false} SplitOfJoin(parts: seq<string>)
    requires parts != [] && NoDots(parts)
    ensures Split(Join(parts)) == parts
  {
    if |parts| == 1 {
      CutNothing(parts[0], '.');
    } else {
      SplitOfJoin(parts[1..]);
      CutAt(parts[0], '.', Join(parts[1..]));
    }
  }
}
