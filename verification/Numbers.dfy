/**
 * Numbers as text: the saturating reader of libc_strtol.c and the writer itoa of
 * libc.c, with 32-bit longs and signed characters.
 */
module Numbers {
  import opened Strcmp

  const ULONG_MAX := 0xFFFF_FFFF
  const LONG_MAX := 0x7FFF_FFFF
  const LONG_MIN := -0x8000_0000
  const WRAP := 0x1_0000_0000

  type Long = n: int | -0x8000_0000 <= n <= 0x7FFF_FFFF
  type ULong = n: int | 0 <= n <= 0xFFFF_FFFF

  function AsSigned(n: ULong): Long {
    if n <= LONG_MAX then n else n - WRAP
  }

  function AsUnsigned(n: Long): ULong {
    if n < 0 then n + WRAP else n
  }

  function Clamp(n: int): Long {
    if n < LONG_MIN then LONG_MIN else if n > LONG_MAX then LONG_MAX else n
  }

  // ----- the text that is read -----

  function Code(c: char): int {
    c as int
  }

  predicate IsBlank(c: int) {
    c == 32 || c == 10 || c == 9
  }

  predicate IsCross(c: int) {
    c == Code('x') || c == Code('X')
  }

  /** The digit a character stands for, 36 for none. */
  function DigitOf(c: int): nat {
    if Code('0') <= c <= Code('9') then c - Code('0')
    else if Code('a') <= c <= Code('z') then c - Code('a') + 10
    else if Code('A') <= c <= Code('Z') then c - Code('A') + 10
    else 36
  }

  const LOWER_DIGITS := "0123456789abcdefghijklmnopqrstuvwxyz"
  const UPPER_DIGITS := "0123456789ABCDEFGHIJKLMNOPQRSTUVWXYZ"

  /** Blanks are the space, the new line and the tab. */
  lemma BlankNames(c: char)
    ensures IsBlank(Code(c)) <==> c in " \n\t"
  {
    assert " \n\t" == [' ', '\n', '\t'];
  }

  /** Digits in the order of their values, letters in either case; nothing else is one. */
  lemma DigitNames(c: char, d: nat)
    requires d < 36
    ensures DigitOf(Code(c)) == d <==> c == LOWER_DIGITS[d] || c == UPPER_DIGITS[d]
  {
    LowerDigit(d);
    UpperDigit(d);
    hide LOWER_DIGITS, UPPER_DIGITS;
  }

  lemma LowerDigit(d: nat)
    requires d < 36
    ensures Code(LOWER_DIGITS[d]) == if d < 10 then Code('0') + d else Code('a') + d - 10
  {
  }

  lemma UpperDigit(d: nat)
    requires d < 36
    ensures Code(UPPER_DIGITS[d]) == if d < 10 then Code('0') + d else Code('A') + d - 10
  {
  }

  /** The longest run of digits of the base from position i on. */
  function Run(s: seq<int>, i: nat, base: nat): seq<nat>
    decreases |s| - i
  {
    if i < |s| && base <= 36 && DigitOf(s[i]) < base
    then [DigitOf(s[i])] + Run(s, i + 1, base)
    else []
  }

  function Value(digits: seq<nat>, base: nat): nat {
    if digits == [] then 0
    else Value(digits[..|digits| - 1], base) * base + digits[|digits| - 1]
  }

  function BlanksFrom(s: seq<int>, i: nat): nat
    decreases |s| - i
  {
    if i < |s| && IsBlank(s[i]) then 1 + BlanksFrom(s, i + 1) else 0
  }

  /**
   * What precedes the digits: the sign, the base in force, whether a leading zero was
   * taken for (part of) a prefix, and where the digits start.
   */
  datatype Lead = Lead(negative: bool, base: int, zero: bool, cross: bool, start: nat)

  function LeadOf(s: seq<int>, base: int): Lead {
    var i := BlanksFrom(s, 0);
    var j := if At(s, i) == Code('-') || At(s, i) == Code('+') then i + 1 else i;
    var zero := (base == 16 || base == 0) && At(s, j) == Code('0');
    var cross := zero && IsCross(At(s, j + 1));
    Lead(
      At(s, i) == Code('-'),
      if base != 0 then base else if cross then 16 else if zero then 8 else 10,
      zero,
      cross,
      j + (if cross then 2 else if zero then 1 else 0))
  }

  predicate IsBase(base: int) {
    2 <= base <= 36
  }

  function Magnitude(s: seq<int>, base: int): nat {
    var lead := LeadOf(s, base);
    if IsBase(lead.base) then Value(Run(s, lead.start, lead.base), lead.base) else 0
  }

  /** The integer the text stands for. */
  function Meaning(s: seq<int>, base: int): int {
    var m: int := Magnitude(s, base);
    if LeadOf(s, base).negative then -m else m
  }

  /** Where reading stops: behind the last digit, or at the very start when there is none. */
  function End(s: seq<int>, base: int): nat {
    var lead := LeadOf(s, base);
    var n := if IsBase(lead.base) then |Run(s, lead.start, lead.base)| else 0;
    if n > 0 then lead.start + n
    else if lead.zero then lead.start - (if lead.cross then 1 else 0)
    else 0
  }

  function ReadUnsigned(s: seq<int>, base: int): ULong {
    if Magnitude(s, base) > ULONG_MAX then ULONG_MAX
    else if Meaning(s, base) < 0 then Meaning(s, base) + WRAP
    else Meaning(s, base)
  }

  // ----- _strto_l -----

  lemma Times(a: int, b: int, c: nat)
    requires a <= b
    ensures a * c <= b * c
  {
  }

  lemma OverflowAt(number: nat, base: nat, digit: nat, cutoff: nat, cutoffDigit: nat)
    requires cutoff * base + cutoffDigit == ULONG_MAX && cutoffDigit < base && digit < base
    ensures number > cutoff || (number == cutoff && digit > cutoffDigit) <==> number * base + digit > ULONG_MAX
  {
    if number > cutoff {
      Times(cutoff + 1, number, base);
      assert (cutoff + 1) * base == cutoff * base + base;
    } else if number < cutoff {
      Times(number, cutoff - 1, base);
      assert (cutoff - 1) * base == cutoff * base - base;
    }
  }

  /** One more digit: the overflow test of the source is exact. */
  lemma Overflow(number: nat, base: int, digit: nat)
    requires IsBase(base) && digit < base
    ensures number > ULONG_MAX / base || (number == ULONG_MAX / base && digit > ULONG_MAX - ULONG_MAX / base * base)
       <==> number * base + digit > ULONG_MAX
  {
    OverflowAt(number, base, digit, ULONG_MAX / base, ULONG_MAX % base);
  }

  function Saturated(n: nat): ULong {
    if n > ULONG_MAX then ULONG_MAX else n
  }

  lemma ValueNext(digits: seq<nat>, d: nat, base: nat)
    ensures Value(digits + [d], base) == Value(digits, base) * base + d
  {
    assert (digits + [d])[..|digits|] == digits;
  }

  lemma NextSaturated(v: nat, number: ULong, base: int, digit: nat)
    requires IsBase(base) && digit < base && number == Saturated(v)
    ensures Saturated(v * base + digit) == Saturated(number * base + digit)
    ensures v > ULONG_MAX ==> v * base + digit > ULONG_MAX
  {
  }

  /** Blanks, sign and prefix; fail is where an empty number would end. */
  method SkipLead(str: seq<int>, base0: int) returns (negative: bool, base: int, pos: nat, fail: nat)
    requires IsString(str)
    ensures var lead := LeadOf(str, base0);
            negative == lead.negative && base == lead.base && pos == lead.start <= |str| &&
            fail == if lead.zero then lead.start - (if lead.cross then 1 else 0) else 0
  {
    base, pos, fail := base0, 0, 0;
    while IsBlank(At(str, pos))
      invariant pos <= |str| && BlanksFrom(str, 0) == pos + BlanksFrom(str, pos)
      decreases |str| - pos
    {
      pos := pos + 1;
    }
    negative := false;
    if At(str, pos) == Code('-') {
      negative := true;
      pos := pos + 1;
    } else if At(str, pos) == Code('+') {
      pos := pos + 1;
    }
    if base == 16 && At(str, pos) == Code('0') {
      pos := pos + 1;
      fail := pos;
      if IsCross(At(str, pos)) {
        pos := pos + 1;
      }
    }
    if base == 0 {
      base := 10;
      if At(str, pos) == Code('0') {
        pos := pos + 1;
        base := base - 2;
        fail := pos;
        if IsCross(At(str, pos)) {
          base := base + 8;
          pos := pos + 1;
        }
      }
    }
  }

  /** The digit the source computes from a character; anything from 36 up, or 40, ends the number. */
  method ReadDigit(c: int) returns (digit: nat)
    ensures digit == DigitOf(c) || (DigitOf(c) == 36 && digit >= 36)
  {
    digit := 40;
    if Code('0') <= c <= Code('9') {
      digit := c - Code('0');
    } else if c >= Code('a') {
      digit := c - Code('a') + 10;
    } else if c >= Code('A') {
      digit := c - Code('A') + 10;
    }
  }

  /** The adjustment of the number, with the overflow check; v is the value without a limit. */
  method Accumulate(number: ULong, base: int, digit: nat, ghost v: nat) returns (r: ULong, over: bool)
    requires IsBase(base) && digit < base && number == Saturated(v)
    ensures r == Saturated(v * base + digit)
    ensures v > ULONG_MAX || over <==> v * base + digit > ULONG_MAX
  {
    var cutoff := ULONG_MAX / base;
    var cutoffDigit := ULONG_MAX - cutoff * base;
    NextSaturated(v, number, base, digit);
    Overflow(number, base, digit);
    over := number > cutoff || (number == cutoff && digit > cutoffDigit);
    r := if over then ULONG_MAX else number * base + digit;
  }

  /** The loop over the digits, which forgets the sign of an unsigned number that overflows. */
  method ScanDigits(str: seq<int>, base: int, start: nat, negative0: bool, uflag: bool)
    returns (number: ULong, negative: bool, n: nat)
    requires IsString(str) && IsBase(base) && start <= |str|
    ensures var run := Run(str, start, base);
            number == Saturated(Value(run, base)) && n == |run| &&
            negative == (negative0 && !(uflag && Value(run, base) > ULONG_MAX))
  {
    number, negative, n := 0, negative0, 0;
    ghost var run: seq<nat> := [];
    while true
      invariant n == |run| && start + n <= |str|
      invariant Run(str, start, base) == run + Run(str, start + n, base)
      invariant number == Saturated(Value(run, base))
      invariant negative == (negative0 && !(uflag && Value(run, base) > ULONG_MAX))
      decreases |str| - n
    {
      var digit := ReadDigit(At(str, start + n));
      if digit >= base {
        break;
      }
      ValueNext(run, digit, base);
      var over;
      number, over := Accumulate(number, base, digit, Value(run, base));
      if over && uflag {
        negative := false;
      }
      run := run + [digit];
      n := n + 1;
    }
    assert Run(str, start, base) == run;
  }

  method StrToL(str: seq<int>, base0: int, uflag: bool) returns (r: ULong, end: nat)
    requires IsString(str)
    ensures uflag ==> r == ReadUnsigned(str, base0)
    ensures !uflag ==> AsSigned(r) == Clamp(Meaning(str, base0))
    ensures end == End(str, base0)
  {
    var negative, base, pos, fail := SkipLead(str, base0);
    var number: ULong := 0;
    end := fail;
    if IsBase(base) {
      var n;
      number, negative, n := ScanDigits(str, base, pos, negative, uflag);
      if n > 0 {
        end := pos + n;
      }
    }
    r := Deliver(number, negative, uflag);
  }

  /** The sign and the signed limits at the end. */
  method Deliver(number: ULong, negative: bool, uflag: bool) returns (r: ULong)
    ensures uflag ==> r == if negative && number > 0 then WRAP - number else number
    ensures !uflag ==> AsSigned(r) == Clamp(if negative then 0 - number else number)
  {
    if negative {
      if !uflag && number > LONG_MAX + 1 {
        return AsUnsigned(LONG_MIN);
      }
      return (WRAP - number) % WRAP;
    } else {
      if !uflag && number > LONG_MAX {
        return LONG_MAX;
      }
      return number;
    }
  }

  method Strtol(str: seq<int>, base: int) returns (r: Long, end: nat)
    requires IsString(str)
    ensures r == Clamp(Meaning(str, base)) && end == End(str, base)
  {
    var n;
    n, end := StrToL(str, base, false);
    r := AsSigned(n);
  }

  method Strtoul(str: seq<int>, base: int) returns (r: ULong, end: nat)
    requires IsString(str)
    ensures r == ReadUnsigned(str, base) && end == End(str, base)
  {
    r, end := StrToL(str, base, true);
  }
}
