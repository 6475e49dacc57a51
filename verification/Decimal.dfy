/**
 Decimal numbers: `std::to_string` on 64-bit integers and `std::stoll`, its reader.
 */
module Decimal {
  import opened ByteStrings
  import opened JsonValues

  function Digit(d: nat): Byte
    requires d < 10
  {
    ('0' as int + d) as char
  }

  predicate IsDigit(c: Byte) {
    '0' <= c <= '9'
  }

  predicate AllDigits(s: Bytes) {
    forall i :: 0 <= i < |s| ==> IsDigit(s[i])
  }

  function PrintNat(n: nat): Bytes {
    if n < 10 then [Digit(n)] else PrintNat(n / 10) + [Digit(n % 10)]
  }

  /** `std::to_string`. */
  function Print(n: int): Bytes {
    if n < 0 then ['-'] + PrintNat(-n) else PrintNat(n)
  }

  function ReadNat(s: Bytes): nat
    requires AllDigits(s)
  {
    if s == [] then 0
    else 10 * ReadNat(s[..|s| - 1]) + (s[|s| - 1] as int - '0' as int)
  }

  /** How many digits `s` begins with. */
  function DigitRun(s: Bytes): (n: nat)
    ensures n <= |s| && AllDigits(s[..n])
    ensures n < |s| ==> !IsDigit(s[n])
  {
    if s == [] || !IsDigit(s[0]) then 0 else 1 + DigitRun(s[1..])
  }

  /** `isspace` of the "C" locale. */
  predicate IsSpace(c: Byte) {
    c == ' ' || 9 <= c as int <= 13
  }

  lemma SpaceList(c: Byte)
    ensures IsSpace(c) <==> c in " \t\n\r" || c as int in {11, 12}
  {
    assert c in " \t\n\r" <==> c == ' ' || c == '\t' || c == '\n' || c == '\r';
  }

  function SkipSpace(s: Bytes): Bytes {
    if s != [] && IsSpace(s[0]) then SkipSpace(s[1..]) else s
  }

  /**
   `std::stoll`: leading blanks, an optional sign, at least one digit; what follows the digits is
   ignored, and a value outside 64 bits throws.
   */
  function Stoll(s: Bytes): (r: Option<int>)
    ensures r.Some? ==> IsInt64(r.value)
  {
    var t := SkipSpace(s);
    var signed := t != [] && (t[0] == '-' || t[0] == '+');
    var u := if signed then t[1..] else t;
    var n := DigitRun(u);
    if n == 0 then None
    else
      var magnitude: int := ReadNat(u[..n]);
      var value := if signed && t[0] == '-' then -magnitude else magnitude;
      if IsInt64(value) then Some(value) else None
  }

  lemma {:induction false} ReadPrintNat(n: nat)
    ensures PrintNat(n) != [] && AllDigits(PrintNat(n))
    ensures ReadNat(PrintNat(n)) == n
  {
    if n < 10 {
      assert PrintNat(n)[..0] == [];
    } else {
      ReadPrintNat(n / 10);
      var s := PrintNat(n);
      assert s[..|s| - 1] == PrintNat(n / 10);
    }
  }

  lemma {:induction false} DigitRunConcat(d: Bytes, rest: Bytes)
    requires AllDigits(d)
    requires rest == [] || !IsDigit(rest[0])
    ensures DigitRun(d + rest) == |d|
  {
    if d != [] {
      assert (d + rest)[1..] == d[1..] + rest;
      DigitRunConcat(d[1..], rest);
    } else {
      assert d + rest == rest;
    }
  }

  /** A printed number holds digits and at most a leading '-'. */
  lemma PrintAlphabet(n: int)
    ensures Print(n) != [] && (Print(n)[0] == '-' || IsDigit(Print(n)[0]))
    ensures forall c: Byte :: c in Print(n) ==> c == '-' || IsDigit(c)
  {
    ReadPrintNat(if n < 0 then -n else n);
  }

  lemma {:induction false} PrintNatCanonical(n: nat)
    ensures PrintNat(n) != [] && IsDigit(PrintNat(n)[0]) && (PrintNat(n)[0] == '0' ==> PrintNat(n) == "0")
    ensures n < 10 ==> PrintNat(n) == ["0123456789"[n]]
    ensures PrintNat(n) == "0" <==> n == 0
  {
    if n >= 10 {
      PrintNatCanonical(n / 10);
      assert |PrintNat(n)| >= 2;
    }
  }

  /** A printed number has a '-' exactly when it is negative, and no leading zero. */
  lemma PrintCanonical(n: int)
    ensures Print(n) != [] && (Print(n)[0] == '-' <==> n < 0)
    ensures n < 0 ==> |Print(n)| >= 2 && '1' <= Print(n)[1] <= '9'
    ensures n > 0 ==> '1' <= Print(n)[0] <= '9'
    ensures Print(0) == "0"
  {
    PrintNatCanonical(if n < 0 then -n else n);
    PrintNatCanonical(0);
  }

  /** The value of a sign and digits. */
  function SignedValue(sign: Bytes, digits: Bytes): int
    requires AllDigits(digits)
  {
    if sign == ['-'] then -(ReadNat(digits) as int) else ReadNat(digits)
  }

  lemma {:induction false} SkipBlanks(blanks: Bytes, t: Bytes)
    requires forall c: Byte :: c in blanks ==> IsSpace(c)
    requires t == [] || !IsSpace(t[0])
    ensures SkipSpace(blanks + t) == t
  {
    if blanks == [] {
      assert blanks + t == t;
    } else {
      assert (blanks + t)[1..] == blanks[1..] + t;
      assert blanks[0] in blanks;
      SkipBlanks(blanks[1..], t);
    }
  }

  /**
   What `std::stoll` makes of any text, written as its blanks, an optional sign, its digits and the
   rest: the value if there is a digit and it fits in 64 bits, and an exception otherwise.
   */
  lemma StollReads(blanks: Bytes, sign: Bytes, digits: Bytes, rest: Bytes)
    requires forall c: Byte :: c in blanks ==> IsSpace(c)
    requires sign in {[], ['-'], ['+']}
    requires AllDigits(digits) && (rest == [] || !IsDigit(rest[0]))
    requires sign == [] && digits == [] ==> rest == [] || !(IsSpace(rest[0]) || rest[0] == '-' || rest[0] == '+')
    ensures Stoll(blanks + (sign + (digits + rest)))
            == if digits != [] && IsInt64(SignedValue(sign, digits)) then Some(SignedValue(sign, digits)) else None
  {
    var u := digits + rest;
    var t := sign + u;
    assert t != [] && sign == [] ==> t == u;
    SkipBlanks(blanks, t);
    DigitRunConcat(digits, rest);
    assert u[..|digits|] == digits;
    assert t[|sign|..] == u;
    assert sign == [] ==> t == u;
  }

  /** Every text has such parts. */
  lemma {:induction false} StollParts(s: Bytes) returns (blanks: Bytes, sign: Bytes, digits: Bytes, rest: Bytes)
    ensures s == blanks + (sign + (digits + rest))
    ensures forall c: Byte :: c in blanks ==> IsSpace(c)
    ensures sign in {[], ['-'], ['+']}
    ensures AllDigits(digits) && (rest == [] || !IsDigit(rest[0]))
    ensures sign == [] && digits == [] ==> rest == [] || !(IsSpace(rest[0]) || rest[0] == '-' || rest[0] == '+')
  {
    if s != [] && IsSpace(s[0]) {
      blanks, sign, digits, rest := StollParts(s[1..]);
      blanks := [s[0]] + blanks;
    } else {
      blanks := [];
      sign := if s != [] && (s[0] == '-' || s[0] == '+') then [s[0]] else [];
      var u := s[|sign|..];
      digits, rest := u[..DigitRun(u)], u[DigitRun(u)..];
      assert u == digits + rest;
    }
  }

  /** The reader gives back every printed 64-bit number, whatever non-digit text follows. */
  lemma StollPrint(n: int, rest: Bytes)
    requires IsInt64(n)
    requires rest == [] || !IsDigit(rest[0])
    ensures Stoll(Print(n) + rest) == Some(n)
  {
    hide Stoll, Print, PrintNat, ReadNat;
    PrintParts(n, rest);
    StollReads([], SignOf(n), PrintNat(Magnitude(n)), rest);
  }

  function Magnitude(n: int): nat {
    if n < 0 then -n else n
  }

  function SignOf(n: int): Bytes {
    if n < 0 then ['-'] else []
  }

  lemma PrintParts(n: int, rest: Bytes)
    ensures AllDigits(PrintNat(Magnitude(n))) && PrintNat(Magnitude(n)) != []
    ensures Print(n) + rest == [] + (SignOf(n) + (PrintNat(Magnitude(n)) + rest))
    ensures SignedValue(SignOf(n), PrintNat(Magnitude(n))) == n
  {
    ReadPrintNat(Magnitude(n));
    hide PrintNat, ReadNat;
    assert Print(n) == SignOf(n) + PrintNat(Magnitude(n));
  }

  /** Printing loses nothing. */
  lemma PrintInjective(a: int, b: int)
    requires IsInt64(a) && IsInt64(b) && Print(a) == Print(b)
    ensures a == b
  {
    StollPrint(a, []);
    StollPrint(b, []);
    assert Print(a) + [] == Print(b) + [];
  }
}
