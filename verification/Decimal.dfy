/**
 Decimal printing and parsing, and splitting at colons: strconv and strings.Split as the callbacks
 and keys use them.
 */
module Decimal {
  import opened Wrappers

  const INT64_MIN := -0x8000_0000_0000_0000
  const INT64_MAX := 0x7FFF_FFFF_FFFF_FFFF

  predicate IsInt64(n: int) {
    INT64_MIN <= n <= INT64_MAX
  }

  function Digit(n: nat): char
    requires n < 10
  {
    "0123456789"[n]
  }

  predicate IsDigit(c: char) {
    '0' <= c <= '9'
  }

  function DigitValue(c: char): nat
    requires IsDigit(c)
  {
    c as int - '0' as int
  }

  /** The digits of `n`, padded with zeros to at least `width`. */
  function PaddedDigits(n: nat, width: nat): (s: string)
    ensures s != "" && |s| >= width && forall i :: 0 <= i < |s| ==> IsDigit(s[i])
    decreases n, width
  {
    if n < 10 && width <= 1 then [Digit(n)]
    else PaddedDigits(n / 10, if width == 0 then 0 else width - 1) + [Digit(n % 10)]
  }

  function Padded(n: int, width: nat): string {
    if n < 0 then "-" + PaddedDigits(-n, width) else PaddedDigits(n, width)
  }

  /** The %d verb. */
  function Print(n: int): string {
    Padded(n, 0)
  }

  function DigitsValue(s: string): nat
    requires forall i :: 0 <= i < |s| ==> IsDigit(s[i])
  {
    if s == "" then 0 else 10 * DigitsValue(s[..|s| - 1]) + DigitValue(s[|s| - 1])
  }

  /** The number a decimal string with an optional sign denotes. */
  function Value(s: string): Option<int> {
    var body := if s != "" && (s[0] == '+' || s[0] == '-') then s[1..] else s;
    if body == "" || exists i :: 0 <= i < |body| && !IsDigit(body[i]) then None
    else
      var magnitude: int := DigitsValue(body);
      Some(if s[0] == '-' then -magnitude else magnitude)
  }

  /** strconv.ParseInt(s, 10, 64), and strconv.Atoi where int has 64 bits. */
  function ParseInt(s: string): Option<int> {
    match Value(s)
    case Some(n) => if IsInt64(n) then Some(n) else None
    case None => None
  }

  lemma DigitDenotes(n: nat)
    requires n < 10
    ensures IsDigit(Digit(n)) && DigitValue(Digit(n)) == n
  {
  }

  lemma ValueSnoc(front: string, n: nat)
    requires n < 10 && forall i :: 0 <= i < |front| ==> IsDigit(front[i])
    ensures forall i :: 0 <= i <= |front| ==> IsDigit((front + [Digit(n)])[i])
    ensures DigitsValue(front + [Digit(n)]) == 10 * DigitsValue(front) + n
  {
    DigitDenotes(n);
    assert (front + [Digit(n)])[..|front|] == front;
  }

  lemma {:induction false} DigitsDenote(n: nat, width: nat)
    ensures DigitsValue(PaddedDigits(n, width)) == n
    decreases n, width
  {
    if n < 10 && width <= 1 {
      ValueSnoc("", n);
      assert "" + [Digit(n)] == [Digit(n)];
    } else {
      var w := if width == 0 then 0 else width - 1;
      DigitsDenote(n / 10, w);
      ValueSnoc(PaddedDigits(n / 10, w), n % 10);
    }
  }

  lemma DigitsHaveTheirValue(body: string)
    requires body != "" && forall i :: 0 <= i < |body| ==> IsDigit(body[i])
    ensures Value(body) == Some(DigitsValue(body))
    ensures Value("-" + body) == Some(-(DigitsValue(body) as int))
  {
    hide DigitsValue;
    assert ("-" + body)[1..] == body;
    assert !(body[0] == '+' || body[0] == '-');
  }

  /** A printed number denotes itself, whatever the padding. */
  lemma PaddedDenotes(n: int, width: nat)
    ensures Value(Padded(n, width)) == Some(n)
  {
    hide Value, PaddedDigits, DigitsValue;
    var magnitude: nat := if n < 0 then -n else n;
    DigitsDenote(magnitude, width);
    DigitsHaveTheirValue(PaddedDigits(magnitude, width));
  }

  lemma PaddedAsPrinted()
    ensures Print(42) == "42" && Print(105) == "105" && Print(7) == "7" && Print(2) == "2" && Print(-30) == "-30"
    ensures Padded(2024, 4) == "2024" && Padded(3, 2) == "03" && Padded(7, 2) == "07"
  {
    assert PaddedDigits(10, 0) == PaddedDigits(1, 0) + "0";
    assert PaddedDigits(202, 3) == "202" by {
      assert PaddedDigits(20, 2) == PaddedDigits(2, 1) + "0";
    }
  }

  lemma PrintParses(n: int)
    requires IsInt64(n)
    ensures ParseInt(Print(n)) == Some(n)
  {
    PaddedDenotes(n, 0);
  }

  predicate ColonFree(s: string) {
    forall i :: 0 <= i < |s| ==> s[i] != ':'
  }

  lemma PaddedIsColonFree(n: int, width: nat)
    ensures ColonFree(Padded(n, width)) && Padded(n, width) != "" && IsDigit(Padded(n, width)[|Padded(n, width)| - 1])
  {
  }

  /** strings.Split(s, ":"). */
  function Split(s: string): (parts: seq<string>)
    ensures parts != []
  {
    if s == "" then [""]
    else
      var rest := Split(s[1..]);
      if s[0] == ':' then [""] + rest else [[s[0]] + rest[0]] + rest[1..]
  }

  lemma {:induction false} SplitAtColon(a: string, b: string)
    requires ColonFree(a)
    ensures Split(a + ":" + b) == [a] + Split(b)
  {
    if a == "" {
      assert (a + ":" + b)[1..] == b;
    } else {
      assert (a + ":" + b)[1..] == a[1..] + ":" + b;
      SplitAtColon(a[1..], b);
      assert [a[0]] + a[1..] == a;
    }
  }

  lemma {:induction false} SplitWithoutColon(a: string)
    requires ColonFree(a)
    ensures Split(a) == [a]
  {
    if a == "" {
    } else {
      SplitWithoutColon(a[1..]);
      assert [a[0]] + a[1..] == a;
    }
  }

  lemma {:induction false} PartsAreColonFree(s: string)
    ensures forall i :: 0 <= i < |Split(s)| ==> ColonFree(Split(s)[i])
  {
    if s == "" {
    } else {
      PartsAreColonFree(s[1..]);
    }
  }
}
