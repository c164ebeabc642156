/**
 Positional numerals as the C++ library prints and reads them: std::to_string and {:x} on one side,
 std::stoul / std::stoull on the other.
 */
module Digits {
  import opened Prelude

  const TWO_32: nat := 0x1_0000_0000
  const TWO_64: nat := 0x1_0000_0000_0000_0000

  function DigitChar(d: nat): char
    requires d < 16
  {
    if d < 10 then ('0' as int + d) as char else ('a' as int + d - 10) as char
  }

  /** The value of a digit of a base up to 16; 16 for any other character. */
  function DigitValue(c: char): (v: nat) {
    if '0' <= c <= '9' then c as int - '0' as int
    else if 'a' <= c <= 'f' then c as int - 'a' as int + 10
    else if 'A' <= c <= 'F' then c as int - 'A' as int + 10
    else 16
  }

  ghost predicate AllDigits(s: string, base: Base) {
    forall i | 0 <= i < |s| :: DigitValue(s[i]) < base.Radix()
  }

  /** The two bases the program prints in. */
  datatype Base = Decimal | Hex {
    function Radix(): nat { if Decimal? then 10 else 16 }
    function Div(n: nat): nat { if Decimal? then n / 10 else n / 16 }
    function Mod(n: nat): nat { if Decimal? then n % 10 else n % 16 }
    function Shift(n: nat): nat { if Decimal? then n * 10 else n * 16 }
  }

  /** Most significant digit first, no leading zero. */
  function Print(n: nat, base: Base): (s: string) {
    if n < base.Radix() then [DigitChar(n)] else Print(base.Div(n), base) + [DigitChar(base.Mod(n))]
  }

  function Value(s: string, base: Base): nat {
    if s == [] then 0 else base.Shift(Value(s[..|s| - 1], base)) + DigitValue(s[|s| - 1])
  }

  lemma ValueAppend(s: string, c: char, base: Base)
    ensures Value(s + [c], base) == base.Shift(Value(s, base)) + DigitValue(c)
  {
    assert (s + [c])[..|s|] == s;
  }

  lemma AllDigitsAppend(s: string, c: char, base: Base)
    requires AllDigits(s, base) && DigitValue(c) < base.Radix()
    ensures AllDigits(s + [c], base)
  {
  }

  lemma {:induction false} PrintRoundTrip(n: nat, base: Base)
    ensures |Print(n, base)| > 0 && AllDigits(Print(n, base), base)
    ensures Value(Print(n, base), base) == n
  {
    if n < base.Radix() {
      ValueAppend([], DigitChar(n), base);
      assert [] + [DigitChar(n)] == Print(n, base);
    } else {
      var q, c := base.Div(n), DigitChar(base.Mod(n));
      PrintRoundTrip(q, base);
      assert Print(n, base) == Print(q, base) + [c];
      ValueAppend(Print(q, base), c, base);
      AllDigitsAppend(Print(q, base), c, base);
    }
  }

  lemma PrintInjective(m: nat, n: nat, base: Base)
    requires Print(m, base) == Print(n, base)
    ensures m == n
  {
    PrintRoundTrip(m, base);
    PrintRoundTrip(n, base);
  }

  /** How many digits the text starts with. */
  function DigitRun(s: string, base: Base): (n: nat)
    ensures n <= |s|
    ensures AllDigits(s[..n], base)
    ensures n < |s| ==> DigitValue(s[n]) >= base.Radix()
  {
    if s == [] || DigitValue(s[0]) >= base.Radix() then 0
    else
      var n := DigitRun(s[1..], base);
      assert s[..1 + n] == [s[0]] + s[1..][..n];
      assert n < |s[1..]| ==> s[1..][n] == s[1 + n];
      1 + n
  }

  lemma DigitRunUnique(s: string, n: nat, base: Base)
    requires n <= |s| && AllDigits(s[..n], base)
    requires n < |s| ==> DigitValue(s[n]) >= base.Radix()
    ensures DigitRun(s, base) == n
  {
  }

  predicate IsSpace(c: char) {
    c == ' ' || '\t' as int <= c as int <= '\r' as int
  }

  function SkipSpace(s: string): string {
    if s != [] && IsSpace(s[0]) then SkipSpace(s[1..]) else s
  }

  /**
   std::stoul on a platform with 64-bit unsigned long: leading white space, an optional sign, the
   longest run of decimal digits; anything after it is ignored. None stands for the two exceptions,
   no digits at all and a magnitude that does not fit. A minus sign negates modulo 2^64.
   */
  function Stoul(s: string): (r: Option<nat>)
    ensures r.Some? ==> r.value < TWO_64
  {
    var t := SkipSpace(s);
    var negative := t != [] && t[0] == '-';
    var u := if t != [] && (t[0] == '-' || t[0] == '+') then t[1..] else t;
    var n := DigitRun(u, Decimal);
    if n == 0 then None
    else
      var v := Value(u[..n], Decimal);
      if v >= TWO_64 then None
      else Some(if negative then (TWO_64 - v) % TWO_64 else v)
  }

  /** Reading back a printed number, whatever non-digit text follows it. */
  lemma StoulPrint(n: nat, rest: string)
    requires n < TWO_64
    requires rest != [] ==> DigitValue(rest[0]) >= 10
    ensures Stoul(Print(n, Decimal) + rest) == Some(n)
  {
    var p := Print(n, Decimal);
    PrintRoundTrip(n, Decimal);
    var s := p + rest;
    assert s[..|p|] == p;
    assert s[0] == p[0];
    assert DigitValue(s[0]) < 10;
    DigitRunUnique(s, |p|, Decimal);
  }

  /** The characters isspace accepts. */
  lemma SpacesAre(c: char)
    ensures IsSpace(c) <==> c in {' ', '\t', '\n', 11 as char, 12 as char, '\r'}
  {
  }

  lemma {:induction false} SpacesSkipped(space: string, text: string)
    requires (forall i | 0 <= i < |space| :: IsSpace(space[i])) && (text != "" ==> !IsSpace(text[0]))
    ensures SkipSpace(space + text) == text
  {
    if space == "" {
      assert space + text == text;
    } else {
      SpacesSkipped(space[1..], text);
      assert (space + text)[0] == space[0] && (space + text)[1..] == space[1..] + text;
    }
  }

  /** Signs stand in front of the digits. */
  datatype Sign = NoSign | Plus | Minus {
    function Text(): string {
      match this
      case NoSign => ""
      case Plus => "+"
      case Minus => "-"
    }
  }

  lemma DigitsRead(digits: string, rest: string)
    requires AllDigits(digits, Decimal) && (rest != "" ==> DigitValue(rest[0]) >= 10)
    ensures DigitRun(digits + rest, Decimal) == |digits| && (digits + rest)[..|digits|] == digits
  {
    assert (digits + rest)[..|digits|] == digits;
    DigitRunUnique(digits + rest, |digits|, Decimal);
  }

  /** Text after the spaces: a sign or none, and what follows it. */
  lemma SignReads(sign: Sign, u: string)
    requires sign.NoSign? && u != "" ==> u[0] != '+' && u[0] != '-'
    ensures var t := sign.Text() + u;
      && (t != [] && t[0] == '-' <==> sign.Minus?)
      && u == if t != [] && (t[0] == '-' || t[0] == '+') then t[1..] else t
  {
  }

  lemma Negated(v: nat)
    requires v < TWO_64
    ensures (TWO_64 - v) % TWO_64 == if v > 0 then TWO_64 - v else 0
  {
  }

  lemma StoulFrom(s: string, t: string, u: string, sign: Sign, digits: string)
    requires SkipSpace(s) == t && (t != [] && t[0] == '-' <==> sign.Minus?)
    requires u == if t != [] && (t[0] == '-' || t[0] == '+') then t[1..] else t
    requires DigitRun(u, Decimal) == |digits| && u[..|digits|] == digits
    ensures var v := Value(digits, Decimal);
      Stoul(s)
      == if digits == "" || v >= 0x1_0000_0000_0000_0000 then None
         else if sign.Minus? && v > 0 then Some(0x1_0000_0000_0000_0000 - v) else Some(v)
  {
    if Value(digits, Decimal) < TWO_64 {
      Negated(Value(digits, Decimal));
    }
  }

  /**
   std::stoul on any text, taken apart: spaces, a sign or none, digits, and a rest that starts with no
   digit. Without digits it is unreadable; otherwise it reads their value, negated modulo 2^64 after a
   minus sign, unless the value needs more than 64 bits.
   */
  lemma StoulReads(space: string, sign: Sign, digits: string, rest: string)
    requires (forall i | 0 <= i < |space| :: IsSpace(space[i])) && AllDigits(digits, Decimal)
    requires rest != "" ==> DigitValue(rest[0]) >= 10
    requires sign.NoSign? && digits == "" && rest != "" ==> !IsSpace(rest[0]) && rest[0] != '+' && rest[0] != '-'
    ensures var v := Value(digits, Decimal);
      Stoul(space + (sign.Text() + (digits + rest)))
      == if digits == "" || v >= 0x1_0000_0000_0000_0000 then None
         else if sign.Minus? && v > 0 then Some(0x1_0000_0000_0000_0000 - v) else Some(v)
  {
    var u := digits + rest;
    if digits != "" {
      FirstOf(digits, rest);
    }
    DigitsRead(digits, rest);
    SignReads(sign, u);
    SpacesSkipped(space, sign.Text() + u);
    StoulFrom(space + (sign.Text() + u), sign.Text() + u, u, sign, digits);
  }

  lemma FirstOf(digits: string, rest: string)
    requires AllDigits(digits, Decimal) && digits != ""
    ensures var c := (digits + rest)[0]; c != '+' && c != '-' && !IsSpace(c)
  {
    assert DigitValue(digits[0]) < 10;
  }
}
