/** Numbers out and in: printnum (lib/printfmt.c) and strtol (lib/string.c). */
module Numbers {

  const LONG_LIMIT: int := 0x8000_0000

  // long is 32 bits wide
  function Wrap(x: int): int { (x + LONG_LIMIT) % (2 * LONG_LIMIT) - LONG_LIMIT }

  function Digit(d: nat): char
    requires d < 16
  {
    if d < 10 then '0' + d as char else 'a' + (d - 10) as char
  }

  // The bases vprintfmt prints in.
  predicate PrintBase(base: nat) { base == 8 || base == 10 || base == 16 }

  function Quot(num: nat, base: nat): (q: nat)
    requires PrintBase(base)
    ensures num >= base ==> q < num
  {
    if base == 8 then num / 8 else if base == 10 then num / 10 else num / 16
  }

  function Last(num: nat, base: nat): (d: nat)
    requires PrintBase(base)
    ensures d < base && d < 16 && (num < base ==> d == num)
  {
    if base == 8 then num % 8 else if base == 10 then num % 10 else num % 16
  }

  lemma QuotAndLast(num: nat, base: nat)
    requires PrintBase(base)
    ensures Quot(num, base) * base + Last(num, base) == num
  {
  }

  // The digits of a number, most significant first.
  function Numeral(num: nat, base: nat): (s: string)
    requires PrintBase(base)
    ensures s != []
    decreases num
  {
    (if num >= base then Numeral(Quot(num, base), base) else []) + [Digit(Last(num, base))]
  }

  function Pads(n: int, c: char): (s: string)
    ensures |s| == if n > 0 then n else 0
    ensures forall k :: 0 <= k < |s| ==> s[k] == c
  {
    if n <= 0 then [] else Pads(n - 1, c) + [c]
  }

  lemma SignFirst(before: string, rest: string)
    ensures before + ['-'] + rest == before + ("-" + rest)
  {
  }

  class Printer {
    var out: string      // what putch has received

    constructor ()
      ensures out == ""
    {
      out := "";
    }

    method Putch(c: char)
      modifies this
      ensures out == old(out) + [c]
    {
      out := out + [c];
    }

    // while (--width > 0) putch(padc)
    method Pad(width: int, padc: char)
      modifies this
      ensures out == old(out) + Pads(width - 1, padc)
    {
      var w := width - 1;
      ghost var k := 0;
      while w > 0
        invariant w + k == width - 1 && k >= 0 && (k > 0 ==> w >= 0)
        invariant out == old(out) + Pads(k, padc)
        decreases w
      {
        Putch(padc);
        w := w - 1;
        k := k + 1;
      }
    }

    // lib/printfmt.c:48
    method PrintNum(num: nat, base: nat, width: int, padc: char)
      requires PrintBase(base)
      modifies this
      ensures out == old(out) + Padded(num, base, width, padc)
      decreases num
    {
      if num >= base {
        PrintNum(Quot(num, base), base, width - 1, padc);
        Putch(Digit(Last(num, base)));
      } else {
        Pad(width, padc);
        Putch(Digit(Last(num, base)));
      }
    }

    // The case of %d (lib/printfmt.c:203): the sign comes before the padding.
    method PrintSigned(num: int, width: int, padc: char)
      modifies this
      ensures out == old(out) + Signed(num, width, padc)
    {
      if num < 0 {
        Putch('-');
        PrintNum(-num, 10, width, padc);
        SignFirst(old(out), Padded(-num, 10, width, padc));
      } else {
        PrintNum(num, 10, width, padc);
      }
    }
  }

  function Padded(num: nat, base: nat, width: int, padc: char): string
    requires PrintBase(base)
  {
    Pads(width - |Numeral(num, base)|, padc) + Numeral(num, base)
  }

  function Signed(num: int, width: int, padc: char): string {
    if num < 0 then "-" + Padded(-num, 10, width, padc) else Padded(num, 10, width, padc)
  }

  // ---------------------------------------------------------------- strtol

  // A C string reads as zero at its end.
  function At(s: string, i: nat): char { if i < |s| then s[i] else '\0' }

  // The value of a digit in any base, or 36.
  function DigitOf(c: char): (d: nat)
    ensures d <= 36
  {
    if '0' <= c <= '9' then (c - '0') as int
    else if 'a' <= c <= 'z' then (c - 'a') as int + 10
    else if 'A' <= c <= 'Z' then (c - 'A') as int + 10
    else 36
  }

  predicate Blank(c: char) { c == ' ' || c == '\t' }

  function SkipBlanks(s: string, i: nat): (j: nat)
    requires i <= |s|
    ensures i <= j <= |s|
    decreases |s| - i
  {
    if Blank(At(s, i)) then SkipBlanks(s, i + 1) else i
  }

  // Past the last digit of the base.
  function DigitsEnd(s: string, i: nat, base: nat): (j: nat)
    requires i <= |s| && base <= 36
    ensures i <= j <= |s| && forall k :: i <= k < j ==> DigitOf(s[k]) < base
    decreases |s| - i
  {
    if DigitOf(At(s, i)) < base then DigitsEnd(s, i + 1, base) else i
  }

  // The value of a run of digits, in 32 bits at each step.
  function Value(digits: string, base: nat): int {
    if digits == [] then 0
    else Wrap(Value(digits[..|digits| - 1], base) * base + DigitOf(digits[|digits| - 1]))
  }

  function AfterSign(s: string, i: nat): nat { if At(s, i) == '+' || At(s, i) == '-' then i + 1 else i }

  predicate HexPrefix(s: string, i: nat, base: nat) { (base == 0 || base == 16) && At(s, i) == '0' && At(s, i + 1) == 'x' }

  function BaseOf(s: string, i: nat, base: nat): nat {
    if HexPrefix(s, i, base) then 16
    else if base == 0 && At(s, i) == '0' then 8
    else if base == 0 then 10
    else base
  }

  function AfterPrefix(s: string, i: nat, base: nat): nat {
    if HexPrefix(s, i, base) then i + 2 else if base == 0 && At(s, i) == '0' then i + 1 else i
  }

  // The digits' start and end, and the number they make.
  datatype Parsed = Parsed(value: int, end: nat)

  function Finish(s: string, k: nat, base: nat, neg: bool): (p: Parsed)
    requires k <= |s| && base <= 36
    ensures p.end <= |s|
  {
    var e := DigitsEnd(s, k, base);
    var v := Value(s[k..e], base);
    Parsed(if neg then Wrap(-v) else v, e)
  }

  function Parse(s: string, base: nat): (p: Parsed)
    requires base <= 36
    ensures p.end <= |s|
  {
    var i := SkipBlanks(s, 0);
    var j := AfterSign(s, i);
    Finish(s, AfterPrefix(s, j, base), BaseOf(s, j, base), At(s, i) == '-')
  }

  method Gobble(s: string) returns (i: nat)
    ensures i == SkipBlanks(s, 0)
  {
    i := 0;
    while At(s, i) == ' ' || At(s, i) == '\t'
      invariant i <= |s| && SkipBlanks(s, i) == SkipBlanks(s, 0)
      decreases |s| - i
    {
      i := i + 1;
    }
  }

  method ReadDigits(s: string, k: nat, base: nat) returns (val: int, i: nat)
    requires k <= |s| && base <= 36
    ensures i == DigitsEnd(s, k, base) && val == Value(s[k..i], base)
  {
    i := k;
    val := 0;
    while DigitOf(At(s, i)) < base
      invariant k <= i <= |s| && DigitsEnd(s, i, base) == DigitsEnd(s, k, base) && val == Value(s[k..i], base)
      decreases |s| - i
    {
      assert s[k..i + 1][..i - k] == s[k..i];
      val := Wrap(val * base + DigitOf(At(s, i)));
      i := i + 1;
    }
  }

  method ReadSign(s: string, i: nat) returns (j: nat, neg: bool)
    ensures j == AfterSign(s, i) && neg == (At(s, i) == '-')
  {
    j, neg := i, false;
    if At(s, j) == '+' {
      j := j + 1;
    } else if At(s, j) == '-' {
      j, neg := j + 1, true;
    }
  }

  method ReadPrefix(s: string, i: nat, base0: nat) returns (j: nat, base: nat)
    requires i <= |s|
    ensures j == AfterPrefix(s, i, base0) <= |s| && base == BaseOf(s, i, base0)
  {
    j, base := i, base0;
    if (base == 0 || base == 16) && At(s, j) == '0' && At(s, j + 1) == 'x' {
      j, base := j + 2, 16;
    } else if base == 0 && At(s, j) == '0' {
      j, base := j + 1, 8;
    } else if base == 0 {
      base := 10;
    }
  }

  // lib/string.c:240
  method Strtol(s: string, base0: nat) returns (value: int, end: nat)
    requires base0 <= 36
    ensures Parsed(value, end) == Parse(s, base0)
  {
    var i := Gobble(s);
    var j, neg := ReadSign(s, i);
    var k, base := ReadPrefix(s, j, base0);
    value, end := ReadDigits(s, k, base);
    if neg { value := Wrap(-value); }
  }

  // ---------------------------------------------------------------- there and back

  lemma DigitBack(d: nat)
    requires d < 16
    ensures DigitOf(Digit(d)) == d && Digit(d) != 'x' && !Blank(Digit(d)) && Digit(d) != '+' && Digit(d) != '-'
  {
  }

  predicate PlainDigit(c: char, base: nat) { DigitOf(c) < base && c != 'x' && !Blank(c) && c != '+' && c != '-' }

  lemma {:induction false} NumeralDigits(num: nat, base: nat)
    requires PrintBase(base)
    ensures forall k :: 0 <= k < |Numeral(num, base)| ==> PlainDigit(Numeral(num, base)[k], base)
    decreases num
  {
    DigitBack(Last(num, base));
    if num >= base { NumeralDigits(Quot(num, base), base); }
  }

  // One more digit takes q to num.
  lemma ValueMore(init: string, c: char, base: nat, q: int, num: int)
    requires Value(init, base) == q && q * base + DigitOf(c) == num
    ensures Value(init + [c], base) == Wrap(num)
  {
    assert (init + [c])[..|init|] == init;
  }

  lemma WrapSmall(x: int)
    requires -LONG_LIMIT <= x < LONG_LIMIT
    ensures Wrap(x) == x
  {
  }

  // 32 bits read as a long.
  function AsLong(num: nat): int { if num < LONG_LIMIT then num else num - 2 * LONG_LIMIT }

  lemma WrapIsLong(num: nat)
    requires num < 2 * LONG_LIMIT
    ensures Wrap(num) == AsLong(num)
  {
  }

  // Leading zeros do not count; up to 32 bits only the last step can overflow.
  lemma {:induction false} ValueOfNumeral(zeros: string, num: nat, base: nat)
    requires PrintBase(base) && num < 2 * LONG_LIMIT && forall k :: 0 <= k < |zeros| ==> zeros[k] == '0'
    ensures Value(zeros + Numeral(num, base), base) == AsLong(num)
    decreases num
  {
    WrapIsLong(num);
    DigitBack(Last(num, base));
    var c := Digit(Last(num, base));
    QuotAndLast(num, base);
    if num >= base {
      var init := Numeral(Quot(num, base), base);
      ValueOfNumeral(zeros, Quot(num, base), base);
      ValueMore(zeros + init, c, base, Quot(num, base), num);
      assert zeros + Numeral(num, base) == (zeros + init) + [c];
    } else {
      ZeroValue(zeros, base);
      ValueMore(zeros, c, base, 0, num);
      assert zeros + Numeral(num, base) == zeros + [c];
    }
  }

  lemma {:induction false} ZeroValue(zeros: string, base: nat)
    requires forall k :: 0 <= k < |zeros| ==> zeros[k] == '0'
    ensures Value(zeros, base) == 0
  {
    if zeros != [] { ZeroValue(zeros[..|zeros| - 1], base); }
  }

  lemma {:induction false} BlanksSkipped(s: string, i: nat, n: nat)
    requires i <= n <= |s| && (forall k :: i <= k < n ==> s[k] == ' ') && (n < |s| ==> !Blank(s[n]))
    ensures SkipBlanks(s, i) == n
    decreases n - i
  {
    if i < n { BlanksSkipped(s, i + 1, n); }
  }

  lemma {:induction false} DigitsToEnd(s: string, i: nat, base: nat)
    requires i <= |s| && base <= 36 && forall k :: i <= k < |s| ==> DigitOf(s[k]) < base
    ensures DigitsEnd(s, i, base) == |s|
    decreases |s| - i
  {
    if i < |s| { DigitsToEnd(s, i + 1, base); }
  }

  lemma FinishDigits(s: string, k: nat, base: nat, neg: bool)
    requires k <= |s| && base <= 36 && forall i :: k <= i < |s| ==> DigitOf(s[i]) < base
    ensures Finish(s, k, base, neg) == Parsed(if neg then Wrap(-Value(s[k..], base)) else Value(s[k..], base), |s|)
  {
    DigitsToEnd(s, k, base);
    assert s[k..|s|] == s[k..];
  }

  lemma NoPrefix(s: string, j: nat, base: nat)
    requires base != 0 && At(s, j + 1) != 'x'
    ensures AfterPrefix(s, j, base) == j && BaseOf(s, j, base) == base
  {
  }

  // Text that consists of blanks and then plain digits to its end.
  lemma ParsePlain(s: string, k: nat, base: nat)
    requires 0 < base <= 36 && k < |s| && (forall i :: 0 <= i < k ==> s[i] == ' ')
    requires forall i :: k <= i < |s| ==> PlainDigit(s[i], base)
    ensures Parse(s, base) == Parsed(Value(s[k..], base), |s|)
  {
    BlanksSkipped(s, 0, k);
    assert AfterSign(s, k) == k;
    NoPrefix(s, k, base);
    FinishDigits(s, k, base, false);
  }

  predicate AllPlain(digits: string, base: nat) { forall k :: 0 <= k < |digits| ==> PlainDigit(digits[k], base) }

  lemma PaddedParses(pads: string, digits: string, base: nat, padc: char)
    requires PrintBase(base) && digits != [] && AllPlain(digits, base) && (padc == ' ' || padc == '0')
    requires forall k :: 0 <= k < |pads| ==> pads[k] == padc
    ensures Parse(pads + digits, base) ==
              Parsed(Value((if padc == ' ' then [] else pads) + digits, base), |pads + digits|)
  {
    var s := pads + digits;
    var k := if padc == ' ' then |pads| else 0;
    forall i: nat | k <= i < |s| ensures PlainDigit(s[i], base) {
      if i < |pads| { assert s[i] == '0'; } else { assert s[i] == digits[i - |pads|]; }
    }
    ParsePlain(s, k, base);
    assert s[k..] == (if padc == ' ' then [] else pads) + digits;
  }

  lemma PadsRead(pads: string, num: nat, base: nat, padc: char)
    requires num < 2 * LONG_LIMIT && PrintBase(base) && (padc == ' ' || padc == '0')
    requires forall k :: 0 <= k < |pads| ==> pads[k] == padc
    ensures Parse(pads + Numeral(num, base), base) == Parsed(AsLong(num), |pads + Numeral(num, base)|)
  {
    NumeralDigits(num, base);
    PaddedParses(pads, Numeral(num, base), base, padc);
    if padc == ' ' {
      ValueOfNumeral([], num, base);
    } else {
      ValueOfNumeral(pads, num, base);
    }
  }

  // What printnum prints of a 32-bit number, strtol reads to its end, whatever the width, with
  // spaces or zeros in front; it gives the number back exactly when it is below 2^31.
  lemma ReadsBack(num: nat, base: nat, width: int, padc: char)
    requires num < 2 * LONG_LIMIT && PrintBase(base) && (padc == ' ' || padc == '0')
    ensures var s := Padded(num, base, width, padc);
            && Parse(s, base) == Parsed(AsLong(num), |s|) && (AsLong(num) == num <==> num < LONG_LIMIT)
            && |s| == if width > |Numeral(num, base)| then width else |Numeral(num, base)|
  {
    PadsRead(Pads(width - |Numeral(num, base)|, padc), num, base, padc);
  }

  method PrintThenParse(num: nat, base: nat, width: int, padc: char) returns (value: int, end: nat, len: nat)
    requires num < 2 * LONG_LIMIT && PrintBase(base) && (padc == ' ' || padc == '0')
    ensures (value == num <==> num < LONG_LIMIT) && end == len
    ensures len == if width > |Numeral(num, base)| then width else |Numeral(num, base)|
  {
    var p := new Printer();
    p.PrintNum(num, base, width, padc);
    ReadsBack(num, base, width, padc);
    assert p.out == Padded(num, base, width, padc);
    value, end := Strtol(p.out, base);
    len := |p.out|;
  }

  lemma TailPlain(s: string, base: nat)
    requires |s| > 0 && AllPlain(s[1..], base)
    ensures forall i :: 1 <= i < |s| ==> PlainDigit(s[i], base)
  {
    forall i: nat | 1 <= i < |s| ensures PlainDigit(s[i], base) { assert s[i] == s[1..][i - 1]; }
  }

  lemma MinusDigits(s: string, base: nat)
    requires 0 < base <= 36 && |s| > 1 && s[0] == '-' && AllPlain(s[1..], base)
    ensures Parse(s, base) == Parsed(Wrap(-Value(s[1..], base)), |s|)
  {
    TailPlain(s, base);
    BlanksSkipped(s, 0, 0);
    assert AfterSign(s, 0) == 1;
    NoPrefix(s, 1, base);
    FinishDigits(s, 1, base, true);
  }

  lemma MinusBlank(s: string, base: nat)
    requires 0 < base <= 36 && |s| > 1 && s[0] == '-' && s[1] == ' '
    ensures Parse(s, base).end == 1
  {
    BlanksSkipped(s, 0, 0);
    assert AfterSign(s, 0) == 1;
    assert !HexPrefix(s, 1, base);
    assert DigitsEnd(s, 1, base) == 1;
  }

  lemma ZerosPlain(zeros: string, num: nat, base: nat)
    requires PrintBase(base) && forall k :: 0 <= k < |zeros| ==> zeros[k] == '0'
    ensures AllPlain(zeros + Numeral(num, base), base)
  {
    var digits := Numeral(num, base);
    var rest := zeros + digits;
    NumeralDigits(num, base);
    forall i: nat | i < |rest| ensures PlainDigit(rest[i], base) {
      if i < |zeros| { assert rest[i] == '0'; } else { assert rest[i] == digits[i - |zeros|]; }
    }
  }

  predicate ComesBack(num: int, s: string) { Parse(s, 10) == Parsed(num, |s|) }

  lemma MinusOf(rest: string)
    ensures ("-" + rest)[0] == '-' && ("-" + rest)[1..] == rest
  {
  }

  lemma MinusRest(rest: string, num: int)
    requires 0 <= num < LONG_LIMIT && rest != [] && AllPlain(rest, 10) && Value(rest, 10) == num
    ensures ComesBack(-num, "-" + rest)
  {
    WrapSmall(-num);
    MinusOf(rest);
    MinusDigits("-" + rest, 10);
  }

  lemma MinusZeros(zeros: string, num: int)
    requires 0 <= num < LONG_LIMIT && forall k :: 0 <= k < |zeros| ==> zeros[k] == '0'
    ensures ComesBack(-num, "-" + (zeros + Numeral(num, 10)))
  {
    var rest := zeros + Numeral(num, 10);
    ZerosPlain(zeros, num, 10);
    ValueOfNumeral(zeros, num, 10);
    MinusRest(rest, num);
  }

  lemma MinusSpaces(rest: string, num: int)
    requires |rest| > 1 && rest[0] == ' '
    ensures !ComesBack(num, "-" + rest)
  {
    MinusBlank("-" + rest, 10);
  }

  // With a sign before the padding, a negative number comes back exactly when no space stands
  // between its sign and its digits.
  lemma NegativeReadsBack(num: int, width: int, padc: char)
    requires -LONG_LIMIT < num < 0 && (padc == ' ' || padc == '0')
    ensures ComesBack(num, Signed(num, width, padc)) <==> padc == '0' || width <= |Numeral(-num, 10)|
  {
    var pads := Pads(width - |Numeral(-num, 10)|, padc);
    if padc == '0' || width <= |Numeral(-num, 10)| {
      MinusZeros(pads, -num);
    } else {
      MinusSpaces(pads + Numeral(-num, 10), num);
    }
  }

  // ---------------------------------------------------------------- prefixes and signs

  // The prefix by which base 0 recognises a base.
  function Prefix(base: nat): string { if base == 16 then "0x" else if base == 8 then "0" else "" }

  predicate Sign(sign: string) { sign == "" || sign == "+" || sign == "-" }

  lemma {:induction false} GobblesAll(s: string, i: nat, n: nat)
    requires i <= n <= |s| && (forall k :: i <= k < n ==> s[k] == ' ' || s[k] == '\t') && (n < |s| ==> !Blank(s[n]))
    ensures SkipBlanks(s, i) == n
    decreases n - i
  {
    if i < n { GobblesAll(s, i + 1, n); }
  }

  // Where the parts of a text begin.
  lemma Parts(ws: string, sign: string, body: string)
    requires (forall k :: 0 <= k < |ws| ==> ws[k] == ' ' || ws[k] == '\t') && Sign(sign) && body != [] && DigitOf(body[0]) < 10
    ensures var s := ws + sign + body;
            && SkipBlanks(s, 0) == |ws| && AfterSign(s, |ws|) == |ws| + |sign| && (At(s, |ws|) == '-' <==> sign == "-")
            && At(s, |ws| + |sign|) == body[0] && At(s, |ws| + |sign| + 1) == At(body, 1)
  {
    var s := ws + sign + body;
    forall k | 0 <= k < |ws| ensures s[k] == ' ' || s[k] == '\t' { assert s[k] == ws[k]; }
    assert s[|ws| + |sign|] == body[0];
    assert sign != "" ==> s[|ws|] == sign[0];
    GobblesAll(s, 0, |ws|);
  }

  lemma {:induction false} LeadingDigit(num: nat, base: nat)
    requires PrintBase(base) && num > 0
    ensures Numeral(num, base)[0] != '0'
    decreases num
  {
    if num >= base {
      QuotAndLast(num, base);
      assert Quot(num, base) > 0;
      LeadingDigit(Quot(num, base), base);
    }
  }

  // The base in force and where the digits begin, for a text with its prefix.
  lemma PrefixSeen(s: string, j: nat, num: nat, base: nat, base0: nat)
    requires PrintBase(base) && (base0 == 0 || (base0 == 16 == base)) && (base == 10 ==> num > 0)
    requires var body := Prefix(base) + Numeral(num, base); At(s, j) == body[0] && At(s, j + 1) == At(body, 1)
    ensures BaseOf(s, j, base0) == base && AfterPrefix(s, j, base0) == j + |Prefix(base)|
  {
    NumeralDigits(num, base);
    if num > 0 { LeadingDigit(num, base); }
  }

  lemma DigitsOnly(s: string, k: nat, num: nat, base: nat, neg: bool)
    requires PrintBase(base) && num < 2 * LONG_LIMIT && k <= |s| && s[k..] == Numeral(num, base)
    ensures Finish(s, k, base, neg) == Parsed(if neg then Wrap(-AsLong(num)) else AsLong(num), |s|)
  {
    NumeralDigits(num, base);
    forall i: nat | k <= i < |s| ensures DigitOf(s[i]) < base { assert s[i] == s[k..][i - k]; }
    FinishDigits(s, k, base, neg);
    ValueOfNumeral([], num, base);
    assert [] + Numeral(num, base) == Numeral(num, base);
  }

  // A lone zero is an octal prefix without digits.
  lemma LoneZero(s: string, j: nat, neg: bool)
    requires j + 1 == |s| && s[j] == '0'
    ensures Finish(s, AfterPrefix(s, j, 0), BaseOf(s, j, 0), neg) == Parsed(0, |s|)
  {
    assert s[|s|..|s|] == "";
    assert Wrap(0) == 0;
  }

  // strtol with base 0 reads a number in any of the three bases by its prefix, and base 16 one
  // with 0x, after any blanks and a sign: the number, negated for a minus, as a 32-bit long.
  lemma StrtolReads(ws: string, sign: string, num: nat, base: nat, base0: nat)
    requires (forall k :: 0 <= k < |ws| ==> ws[k] == ' ' || ws[k] == '\t') && Sign(sign)
    requires num < 0x1_0000_0000 && PrintBase(base) && (base0 == 0 || (base0 == 16 == base))
    ensures var s := ws + sign + (Prefix(base) + Numeral(num, base));
            Parse(s, base0) == Parsed(if sign == "-" then Wrap(-AsLong(num)) else AsLong(num), |s|)
  {
    BodyStarts(num, base);
    if base == 10 && num == 0 {
      ZeroBody();
      ZeroReads(ws, sign);
    } else {
      NumberReads(ws, sign, Prefix(base) + Numeral(num, base), num, base, base0);
    }
  }

  lemma ZeroReads(ws: string, sign: string)
    requires (forall k :: 0 <= k < |ws| ==> ws[k] == ' ' || ws[k] == '\t') && Sign(sign)
    ensures var s := ws + sign + "0"; Parse(s, 0) == Parsed(0, |s|)
  {
    Parts(ws, sign, "0");
    ZeroAt(ws + sign + "0", |ws|, |ws| + |sign|, sign == "-");
  }

  lemma NumberReads(ws: string, sign: string, body: string, num: nat, base: nat, base0: nat)
    requires (forall k :: 0 <= k < |ws| ==> ws[k] == ' ' || ws[k] == '\t') && Sign(sign)
    requires num < 2 * LONG_LIMIT && PrintBase(base) && (base0 == 0 || (base0 == 16 == base)) && (base == 10 ==> num > 0)
    requires body == Prefix(base) + Numeral(num, base) && body != [] && DigitOf(body[0]) < 10
    ensures var s := ws + sign + body; Parse(s, base0) == Parsed(if sign == "-" then Wrap(-AsLong(num)) else AsLong(num), |s|)
  {
    Parts(ws, sign, body);
    BodyEnd(ws + sign, Prefix(base), Numeral(num, base));
    ReadAt(ws + sign + body, |ws|, |ws| + |sign|, num, base, base0, sign == "-");
  }

  lemma ReadAt(s: string, i: nat, j: nat, num: nat, base: nat, base0: nat, neg: bool)
    requires PrintBase(base) && (base0 == 0 || (base0 == 16 == base)) && num < 2 * LONG_LIMIT && (base == 10 ==> num > 0)
    requires SkipBlanks(s, 0) == i && AfterSign(s, i) == j && (At(s, i) == '-' <==> neg)
    requires var body := Prefix(base) + Numeral(num, base); At(s, j) == body[0] && At(s, j + 1) == At(body, 1)
    requires j + |Prefix(base)| <= |s| && s[j + |Prefix(base)|..] == Numeral(num, base)
    ensures Parse(s, base0) == Parsed(if neg then Wrap(-AsLong(num)) else AsLong(num), |s|)
  {
    ParseIs(s, i, j, base0);
    PrefixSeen(s, j, num, base, base0);
    DigitsOnly(s, j + |Prefix(base)|, num, base, neg);
  }

  lemma ZeroAt(s: string, i: nat, j: nat, neg: bool)
    requires SkipBlanks(s, 0) == i && AfterSign(s, i) == j && (At(s, i) == '-' <==> neg) && j + 1 == |s| && s[j] == '0'
    ensures Parse(s, 0) == Parsed(0, |s|)
  {
    ParseIs(s, i, j, 0);
    LoneZero(s, j, neg);
  }

  lemma BodyStarts(num: nat, base: nat)
    requires PrintBase(base)
    ensures var body := Prefix(base) + Numeral(num, base); body != [] && DigitOf(body[0]) < 10
  {
    NumeralDigits(num, base);
  }

  lemma ParseIs(s: string, i: nat, j: nat, base: nat)
    requires SkipBlanks(s, 0) == i && AfterSign(s, i) == j && base <= 36
    ensures AfterPrefix(s, j, base) <= |s| && BaseOf(s, j, base) <= 36
    ensures Parse(s, base) == Finish(s, AfterPrefix(s, j, base), BaseOf(s, j, base), At(s, i) == '-')
  {
  }

  lemma ZeroBody()
    ensures Prefix(10) + Numeral(0, 10) == "0"
  {
  }

  lemma BodyEnd(before: string, prefix: string, digits: string)
    ensures (before + (prefix + digits))[|before| + |prefix|..] == digits
  {
  }

  // The digits themselves, in lower case.
  lemma DigitsAre(d: nat)
    requires d < 16
    ensures Digit(d) == "0123456789abcdef"[d]
  {
  }

  // strtol takes letters in either case.
  lemma EitherCase(c: char)
    requires 'a' <= c <= 'z'
    ensures DigitOf(c) == DigitOf(c - 'a' + 'A') == 10 + (c as int - 97)
  {
  }
}
