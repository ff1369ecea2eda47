/** Decimal printing (`std::to_string`) and reading (`std::stoi`). */
module Decimal {

  datatype Option<+T> = None | Some(value: T)

  const INT_MAX := 0x7FFF_FFFF

  predicate IsDigit(c: char) {
    '0' <= c <= '9'
  }

  predicate AllDigits(s: string) {
    forall i :: 0 <= i < |s| ==> IsDigit(s[i])
  }

  function Digit(d: nat): char
    requires d < 10
  {
    ('0' as int + d) as char
  }

  function Print(n: nat): string {
    if n < 10 then [Digit(n)] else Print(n / 10) + [Digit(n % 10)]
  }

  /** The number a run of digits denotes. */
  function Value(digits: string): nat
    requires AllDigits(digits)
  {
    if digits == [] then 0
    else 10 * Value(digits[..|digits| - 1]) + (digits[|digits| - 1] as int - '0' as int)
  }

  lemma {:induction false} PrintRoundTrips(n: nat)
    ensures AllDigits(Print(n)) && Print(n) != [] && Value(Print(n)) == n
  {
    if n >= 10 {
      PrintRoundTrips(n / 10);
      var s := Print(n);
      assert s[..|s| - 1] == Print(n / 10);
    }
  }

  lemma {:induction false} PrintInjective(m: nat, n: nat)
    ensures Print(m) == Print(n) <==> m == n
  {
    PrintRoundTrips(m);
    PrintRoundTrips(n);
  }

  /** Length of the longest run of digits at the start of `s`. */
  function DigitRun(s: string): (n: nat)
    ensures n <= |s| && AllDigits(s[..n])
    ensures n < |s| ==> !IsDigit(s[n])
  {
    if s == [] || !IsDigit(s[0]) then 0
    else
      var n := 1 + DigitRun(s[1..]);
      assert s[..n] == [s[0]] + s[1..][..n - 1];
      n
  }

  predicate IsSpace(c: char) {
    c == ' ' || ('\t' <= c <= '\r')
  }

  function SkipSpaces(s: string): string {
    if s != [] && IsSpace(s[0]) then SkipSpaces(s[1..]) else s
  }

  /** `std::stoi`: blanks, an optional sign, then as many digits as there are.
      None where it throws: no digits, or a number that is no 32-bit int. */
  function ReadInt(s: string): Option<int> {
    var t := SkipSpaces(s);
    var signed := t != [] && (t[0] == '-' || t[0] == '+');
    var body := if signed then t[1..] else t;
    var n := DigitRun(body);
    if n == 0 then None
    else
      var magnitude: int := Value(body[..n]);
      var v := if signed && t[0] == '-' then -magnitude else magnitude;
      if -INT_MAX - 1 <= v <= INT_MAX then Some(v) else None
  }

  lemma {:induction false} DigitRunOfDigits(s: string)
    requires AllDigits(s)
    ensures DigitRun(s) == |s|
  {
    if s != [] { DigitRunOfDigits(s[1..]); }
  }

  /** What `to_string` prints, `stoi` reads back, up to the largest int. */
  lemma {:induction false} ReadPrinted(n: nat)
    ensures ReadInt(Print(n)) == if n <= INT_MAX then Some(n) else None
  {
    PrintRoundTrips(n);
    var s := Print(n);
    DigitRunOfDigits(s);
    assert IsDigit(s[0]) && SkipSpaces(s) == s;
    assert s[..|s|] == s;
  }

  /** Space, tab, newline, vertical tab, form feed, carriage return. */
  predicate Blank(c: char) {
    c as int == 32 || 9 <= c as int <= 13
  }

  lemma {:induction false} BlankIsSpace(c: char)
    ensures Blank(c) <==> IsSpace(c)
  {
  }

  lemma {:induction false} SkipsBlanks(blanks: string, rest: string)
    requires forall i :: 0 <= i < |blanks| ==> Blank(blanks[i])
    requires rest != [] ==> !Blank(rest[0])
    ensures SkipSpaces(blanks + rest) == rest
    decreases |blanks|
  {
    if blanks == [] {
      assert blanks + rest == rest;
      if rest != [] { BlankIsSpace(rest[0]); }
    } else {
      assert (blanks + rest)[1..] == blanks[1..] + rest;
      BlankIsSpace(blanks[0]);
      SkipsBlanks(blanks[1..], rest);
    }
  }

  lemma {:induction false} RunEnds(digits: string, rest: string)
    requires AllDigits(digits) && (rest != [] ==> !IsDigit(rest[0]))
    ensures DigitRun(digits + rest) == |digits|
    decreases |digits|
  {
    if digits == [] {
      assert digits + rest == rest;
    } else {
      assert (digits + rest)[1..] == digits[1..] + rest;
      RunEnds(digits[1..], rest);
    }
  }

  /** What `stoi` reads: blanks are skipped, one sign may follow, then comes the longest run of
      digits, and the rest is ignored. It throws without digits and outside 32 bits. */
  lemma {:induction false} ReadIntLaw(blanks: string, sign: string, digits: string, rest: string)
    requires forall i :: 0 <= i < |blanks| ==> Blank(blanks[i])
    requires sign == "" || sign == "-" || sign == "+"
    requires AllDigits(digits) && (rest != [] ==> !IsDigit(rest[0]))
    requires sign == "" && digits == "" && rest != [] ==> !Blank(rest[0]) && rest[0] != '-' && rest[0] != '+'
    ensures var magnitude: int := Value(digits);
      var v := if sign == "-" then -magnitude else magnitude;
      ReadInt(blanks + (sign + (digits + rest)))
      == if digits == "" || v < -0x8000_0000 || v > 0x7FFF_FFFF then None else Some(v)
  {
    hide SkipSpaces, DigitRun, Value;
    var body := digits + rest;
    var t := sign + body;
    assert sign == "" ==> t == body;
    assert sign != "" ==> t[0] == sign[0] && t[1..] == body;
    assert body != [] ==> body[0] == if digits != "" then digits[0] else rest[0];
    SkipsBlanks(blanks, t);
    RunEnds(digits, rest);
    assert body[..|digits|] == digits;
    var signed := t != [] && (t[0] == '-' || t[0] == '+');
    assert signed <==> sign != "";
    assert (if signed then t[1..] else t) == body;
  }

  /** Splitting at the last separator is unambiguous. */
  lemma {:induction false} SplitAtLast<T>(a: seq<T>, b: seq<T>, a': seq<T>, b': seq<T>, sep: T)
    requires a + [sep] + b == a' + [sep] + b'
    requires sep !in b && sep !in b'
    ensures a == a' && b == b'
  {
    var s := a + [sep] + b;
    assert s[..|a|] == a && s[..|a'|] == a';
    assert s[|a| + 1..] == b && s[|a'| + 1..] == b';
    assert s[|a|] == sep && s[|a'|] == sep;
  }
}
