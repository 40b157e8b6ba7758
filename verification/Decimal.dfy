/**
 Decimal numbers: `std::to_string` and `QString::number` on the printing side,
 `QString::toInt` on the reading side.
 */
module Decimal {
  import opened Text

  /** A C++ `int`. */
  type int32 = x: int | -0x8000_0000 <= x < 0x8000_0000

  predicate IsDigit(c: byte) { '0' <= c <= '9' }

  function DigitOf(n: nat): (c: byte)
    requires n < 10
    ensures IsDigit(c) && c as int - '0' as int == n
  {
    ('0' as int + n) as char
  }

  function PrintNat(n: nat): (s: Bytes)
    ensures s != [] && forall i :: 0 <= i < |s| ==> IsDigit(s[i])
  {
    if n < 10 then [DigitOf(n)] else PrintNat(n / 10) + [DigitOf(n % 10)]
  }

  /** `std::to_string(n)` and `QString::number(n)`. */
  function Print(n: int): (s: Bytes)
    ensures s != []
  {
    if n < 0 then ['-'] + PrintNat(-n) else PrintNat(n)
  }

  function ReadNat(s: Bytes): (r: Option<nat>)
  {
    if s == [] then None
    else
      var last := s[|s| - 1];
      if !IsDigit(last) then None
      else
        var digit := last as int - '0' as int;
        if |s| == 1 then Some(digit)
        else
          match ReadNat(s[..|s| - 1])
          case None => None
          case Some(front) => Some(10 * front + digit)
  }

  /** `QString::toInt`: an optional sign and digits; anything else, or out of range, is 0. */
  function ToInt(s: Bytes): int32 {
    var negative := s != [] && s[0] == '-';
    var signed := negative || (s != [] && s[0] == '+');
    match ReadNat(if signed then s[1..] else s)
    case None => 0
    case Some(n) =>
      var v: int := if negative then -(n as int) else n as int;
      if -0x8000_0000 <= v < 0x8000_0000 then v else 0
  }

  lemma {:induction false} ReadPrintNat(n: nat)
    ensures ReadNat(PrintNat(n)) == Some(n)
  {
    var s := PrintNat(n);
    if n >= 10 {
      ReadPrintNat(n / 10);
      assert s[..|s| - 1] == PrintNat(n / 10);
      assert s[|s| - 1] == DigitOf(n % 10);
    }
  }

  lemma PrintedDigits(n: nat)
    ensures var s := PrintNat(n); s[0] != '-' && s[0] != '+'
  {
    assert IsDigit(PrintNat(n)[0]);
  }

  /** Every `int` survives being printed and read back. */
  lemma ToIntOfPrint(n: int32)
    ensures ToInt(Print(n)) == n
  {
    if n < 0 {
      var m := -(n as int);
      ReadPrintNat(m);
      assert Print(n)[1..] == PrintNat(m);
    } else {
      ReadPrintNat(n);
      PrintedDigits(n);
    }
  }

  /** Digits, at least one and nothing else, are what reads as a number. */
  lemma {:induction false} OnlyDigitsRead(s: Bytes)
    ensures ReadNat(s).Some? <==> s != [] && forall i :: 0 <= i < |s| ==> IsDigit(s[i])
  {
    if |s| > 1 {
      OnlyDigitsRead(s[..|s| - 1]);
      assert s == s[..|s| - 1] + [s[|s| - 1]];
    }
  }

  /** One more digit behind a number makes ten times as much, and the digit. */
  lemma DigitBehind(s: Bytes, n: nat)
    requires ReadNat(s).Some? && n < 10
    ensures ReadNat(s + [DigitOf(n)]) == Some(10 * ReadNat(s).value + n)
    ensures ReadNat([DigitOf(n)]) == Some(n)
  {
    assert (s + [DigitOf(n)])[..|s|] == s;
  }

  /** What is not a number within `int` reads as 0; a sign in front is read as one. */
  lemma SignsRead(s: Bytes)
    ensures ReadNat(s) == None ==> ToInt(['-'] + s) == 0 == ToInt(['+'] + s)
    ensures ReadNat(s).Some? && ReadNat(s).value < 0x8000_0000 ==>
              ToInt(s) == ReadNat(s).value == ToInt(['+'] + s) && ToInt(['-'] + s) == -(ReadNat(s).value as int)
    ensures ReadNat(s).Some? && ReadNat(s).value > 0x8000_0000 ==>
              ToInt(s) == 0 == ToInt(['+'] + s) && ToInt(['-'] + s) == 0
  {
    assert (['-'] + s)[1..] == s && (['+'] + s)[1..] == s;
    OnlyDigitsRead(s);
  }
}
