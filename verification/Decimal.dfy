/** Decimal numbers as Rust prints and parses them. */
module Decimal {
  import opened Bytes

  const PLUS: byte := 0x2B

  predicate IsDigit(b: byte) {
    0x30 <= b <= 0x39
  }

  function DigitValue(b: byte): nat
    requires IsDigit(b)
  {
    b - 0x30
  }

  predicate AllDigits(s: seq<byte>) {
    forall i :: 0 <= i < |s| ==> IsDigit(s[i])
  }

  /** The value of a string of decimal digits. */
  function DigitsValue(s: seq<byte>): nat
    requires AllDigits(s)
  {
    if s == [] then 0 else DigitsValue(s[..|s| - 1]) * 10 + DigitValue(s[|s| - 1])
  }

  /** `parse::<u16>`: decimal digits, at least one, after an optional plus sign. */
  function ParseU16(s: seq<byte>): Option<u16> {
    var digits := if s != [] && s[0] == PLUS then s[1..] else s;
    if digits == [] || !AllDigits(digits) || DigitsValue(digits) >= 0x1_0000 then None
    else Some(DigitsValue(digits))
  }

  function Digits(n: nat): (s: seq<byte>)
    ensures s != [] && AllDigits(s)
  {
    if n < 10 then [0x30 + n] else Digits(n / 10) + [0x30 + n % 10]
  }

  lemma {:induction false} DigitsRead(n: nat)
    ensures DigitsValue(Digits(n)) == n
  {
    if n >= 10 {
      var s := Digits(n);
      DigitsRead(n / 10);
      assert s[..|s| - 1] == Digits(n / 10);
    } else {
      assert Digits(n)[..0] == [];
    }
  }

  /** Printing and parsing a number gives it back. */
  lemma PrintedParses(n: u16)
    ensures ParseU16(Digits(n)) == Some(n)
  {
    DigitsRead(n);
    assert IsDigit(Digits(n)[0]);
  }

  // ---------------------------------------------------------------- everything that parses

  function Zeros(n: nat): seq<byte> {
    seq(n, _ => 0x30)
  }

  /** The number in decimal after a plus sign, leading zeros, both or neither. */
  ghost predicate Reads(s: seq<byte>, n: nat) {
    exists zeros: nat :: s == Zeros(zeros) + Digits(n) || s == [PLUS] + (Zeros(zeros) + Digits(n))
  }

  lemma {:induction false} ZerosRead(zeros: nat, n: nat)
    ensures AllDigits(Zeros(zeros) + Digits(n)) && DigitsValue(Zeros(zeros) + Digits(n)) == n
    decreases n
  {
    var s := Zeros(zeros) + Digits(n);
    if n < 10 {
      assert s[..|s| - 1] == Zeros(zeros);
      ZerosAreZero(zeros);
    } else {
      assert s[..|s| - 1] == Zeros(zeros) + Digits(n / 10);
      ZerosRead(zeros, n / 10);
    }
  }

  lemma {:induction false} ZerosAreZero(zeros: nat)
    ensures AllDigits(Zeros(zeros)) && DigitsValue(Zeros(zeros)) == 0
  {
    if zeros > 0 {
      assert Zeros(zeros)[..zeros - 1] == Zeros(zeros - 1);
      ZerosAreZero(zeros - 1);
    }
  }

  lemma {:induction false} ZeroIsZeros(s: seq<byte>)
    requires AllDigits(s) && DigitsValue(s) == 0
    ensures s == Zeros(|s|)
  {
    if s != [] {
      ZeroIsZeros(s[..|s| - 1]);
    }
  }

  lemma {:induction false} DigitsPadded(s: seq<byte>) returns (zeros: nat)
    requires s != [] && AllDigits(s)
    ensures s == Zeros(zeros) + Digits(DigitsValue(s))
  {
    var front, n := s[..|s| - 1], DigitsValue(s);
    if DigitsValue(front) == 0 {
      ZeroIsZeros(front);
      zeros := |front|;
    } else {
      zeros := DigitsPadded(front);
      assert Digits(n) == Digits(DigitsValue(front)) + [s[|s| - 1]];
    }
  }

  /** A string parses to a number exactly when it is that number in decimal, padded with zeros or signed. */
  lemma ParsesExactly(s: seq<byte>, n: u16)
    ensures ParseU16(s) == Some(n) <==> Reads(s, n)
  {
    var signed := s != [] && s[0] == PLUS;
    var digits := if signed then s[1..] else s;
    assert signed ==> s == [PLUS] + digits;
    if ParseU16(s) == Some(n) {
      var zeros := DigitsPadded(digits);
    }
    if Reads(s, n) {
      var zeros :| s == Zeros(zeros) + Digits(n) || s == [PLUS] + (Zeros(zeros) + Digits(n));
      ZerosRead(zeros, n);
      assert (Zeros(zeros) + Digits(n))[0] != PLUS;
      assert digits == Zeros(zeros) + Digits(n);
    }
  }
}
