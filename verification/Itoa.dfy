/** libc.c's itoa, and reading back what it writes with strtol and strtoul. */
module Itoa {
  import opened Strcmp
  import opened Numbers

  function DigitChar(d: nat): int
    requires d < 16
  {
    if d < 10 then d + Code('0') else d + Code('a') - 10
  }

  function DigitsOf(n: nat, b: nat): seq<int>
    requires 2 <= b <= 16
  {
    if n < b then [DigitChar(n)] else DigitsOf(n / b, b) + [DigitChar(n % b)]
  }

  function Divisor(base: int): nat {
    if base == Code('x') then 16 else 10
  }

  lemma Quotients(n: nat, b: nat)
    requires 2 <= b
    ensures n < b ==> n % b == n && n / b == 0
    ensures n >= b ==> 0 < n / b < n
  {
    var q := n / b;
    assert n == q * b + n % b;
    if n < b {
      assert q >= 1 ==> q * b >= b;
    } else {
      assert q <= 0 ==> q * b <= 0;
      assert q * b >= q + q;
    }
  }

  lemma DigitsStep(n: nat, b: nat)
    requires 2 <= b <= 16
    ensures n < b ==> n % b == n && n / b == 0 && DigitsOf(n, b) == [DigitChar(n)]
    ensures n >= b ==> 0 < n / b < n && DigitsOf(n, b) == DigitsOf(n / b, b) + [DigitChar(n % b)]
    ensures 0 < |DigitsOf(n, b)|
  {
    Quotients(n, b);
  }

  /** The absolute value, by the wrap-around of the source's -d. */
  function Size(d: Long): (n: ULong)
    ensures n == if d < 0 then 0 - d else d
  {
    var n: int := d;
    if n < 0 then (-n) % WRAP else n
  }

  function Text(base: int, d: Long): seq<int> {
    if base == Code('d') && d < 0 then [Code('-')] + DigitsOf(Size(d), 10)
    else DigitsOf(AsUnsigned(d), Divisor(base))
  }

  function Reversed(s: seq<int>): seq<int> {
    if s == [] then [] else [s[|s| - 1]] + Reversed(s[..|s| - 1])
  }

  lemma {:induction false} ReversedAt(s: seq<int>)
    ensures |Reversed(s)| == |s|
    ensures forall k :: 0 <= k < |s| ==> Reversed(s)[k] == s[|s| - 1 - k]
  {
    if s != [] {
      ReversedAt(s[..|s| - 1]);
    }
  }

  lemma ReversedNone()
    ensures Reversed([]) == []
  {
  }

  lemma ReversedNext(s: seq<int>, c: int)
    ensures Reversed(s + [c]) == [c] + Reversed(s)
  {
    assert (s + [c])[..|s|] == s;
  }

  lemma ReversedIs(s: seq<int>, r: seq<int>)
    requires |r| == |s| && forall k :: 0 <= k < |s| ==> r[k] == s[|s| - 1 - k]
    ensures r == Reversed(s)
  {
    hide Reversed;
    ReversedAt(s);
  }

  /** The loop that writes the digits of ud from buf[start] on, the last one first. */
  method WriteDigits(buf: array<int>, start: nat, number: ULong, divisor: nat) returns (p: nat)
    requires 2 <= divisor <= 16
    requires start + |DigitsOf(number, divisor)| < buf.Length
    modifies buf
    ensures start < p == start + |DigitsOf(number, divisor)|
    ensures Reversed(buf[start..p]) == DigitsOf(number, divisor)
    ensures buf[..start] == old(buf[..start]) && buf[p..] == old(buf[p..])
  {
    hide DigitsOf, DigitChar, Reversed;
    ReversedNone();
    assert buf[start..start] == [];
    p := start;
    var ud: nat := number;
    while true
      invariant start <= p <= p + |DigitsOf(ud, divisor)| == start + |DigitsOf(number, divisor)|
      invariant DigitsOf(number, divisor) == DigitsOf(ud, divisor) + Reversed(buf[start..p])
      invariant forall k :: 0 <= k < start || p <= k < buf.Length ==> buf[k] == old(buf[k])
      decreases ud
    {
      ghost var done := buf[start..p];
      DigitsStep(ud, divisor);
      var remainder := ud % divisor;
      buf[p] := DigitChar(remainder);
      p := p + 1;
      assert buf[start..p] == done + [buf[p - 1]];
      ReversedNext(done, buf[p - 1]);
      ud := ud / divisor;
      if ud == 0 {
        break;
      }
    }
  }

  /** The loop that turns buf[start..p] around. */
  method TurnAround(buf: array<int>, start: nat, p: nat)
    requires start < p <= buf.Length
    modifies buf
    ensures buf[start..p] == Reversed(old(buf[start..p]))
    ensures buf[..start] == old(buf[..start]) && buf[p..] == old(buf[p..])
  {
    hide Reversed;
    var p1, p2 := start, p - 1;
    while p1 < p2
      invariant start <= p1 <= p2 + 1 <= p && p1 + p2 == start + p - 1
      invariant forall k :: start <= k < p1 || p2 < k < p ==> buf[k] == old(buf[start + p - 1 - k])
      invariant forall k :: p1 <= k <= p2 ==> buf[k] == old(buf[k])
      invariant forall k :: 0 <= k < start || p <= k < buf.Length ==> buf[k] == old(buf[k])
      decreases p2 - p1
    {
      var tmp := buf[p1];
      buf[p1] := buf[p2];
      buf[p2] := tmp;
      p1, p2 := p1 + 1, p2 - 1;
    }
    ghost var was, now := old(buf[start..p]), buf[start..p];
    forall k | 0 <= k < |was| ensures now[k] == was[|was| - 1 - k] {
      assert now[k] == buf[start + k];
    }
    ReversedIs(was, now);
  }

  method Itoa(buf: array<int>, base: int, d: Long)
    requires |Text(base, d)| < buf.Length
    modifies buf
    ensures buf[..|Text(base, d)| + 1] == Text(base, d) + [0]
    ensures buf[|Text(base, d)| + 1..] == old(buf[|Text(base, d)| + 1..])
  {
    hide DigitsOf, Reversed;
    var start, ud, divisor := 0, AsUnsigned(d), 10;
    if base == Code('d') && d < 0 {
      buf[0] := Code('-');
      start := 1;
      ud := Size(d);
    } else if base == Code('x') {
      divisor := 16;
    }
    ghost var n, sign := |Text(base, d)|, buf[..start];
    assert Text(base, d) == sign + DigitsOf(ud, divisor);
    var p := WriteDigits(buf, start, ud, divisor);
    ghost var tail := buf[p..];
    assert tail == old(buf[n..]);
    buf[p] := 0;
    TurnAround(buf, start, p);
    Joined(buf[..], start, p, sign, DigitsOf(ud, divisor));
    assert buf[p + 1..] == tail[1..] by { assert buf[p..][1..] == tail[1..]; }
  }

  lemma Joined(s: seq<int>, start: nat, p: nat, sign: seq<int>, digits: seq<int>)
    requires start <= p < |s| && s[..start] == sign && s[start..p] == digits && s[p] == 0
    ensures s[..p + 1] == sign + digits + [0]
  {
    assert s[..p + 1] == s[..start] + s[start..p] + [s[p]];
  }

  // ----- the room itoa needs -----

  function Power(b: nat, k: nat): nat {
    if k == 0 then 1 else b * Power(b, k - 1)
  }

  lemma Quotient(n: nat, b: nat, m: nat)
    requires 0 < b && n < b * m
    ensures n / b < m
  {
  }

  lemma {:induction false} DigitCount(n: nat, b: nat, k: nat)
    requires 2 <= b <= 16 && n < Power(b, k + 1)
    ensures 1 <= |DigitsOf(n, b)| <= k + 1
  {
    hide DigitsOf, DigitChar;
    DigitsStep(n, b);
    if n >= b {
      Quotient(n, b, Power(b, k));
      DigitCount(n / b, b, k - 1);
    }
  }

  /** Eleven characters and the terminator are always enough. */
  lemma TextLength(base: int, d: Long)
    ensures 1 <= |Text(base, d)| <= 11
    ensures base == Code('x') ==> |Text(base, d)| <= 8
  {
    if base == Code('d') && d < 0 {
      DigitCount(Size(d), 10, 9);
    } else if base == Code('x') {
      DigitCount(AsUnsigned(d), 16, 7);
    } else {
      DigitCount(AsUnsigned(d), 10, 9);
    }
  }

  // ----- what strtol reads -----

  predicate AreDigits(s: seq<int>, base: nat) {
    base <= 36 && forall i :: 0 <= i < |s| ==> DigitOf(s[i]) < base
  }

  function DigitValues(s: seq<int>): (r: seq<nat>)
    ensures |r| == |s| && forall i :: 0 <= i < |s| ==> r[i] == DigitOf(s[i])
  {
    seq(|s|, i requires 0 <= i < |s| => DigitOf(s[i]))
  }

  predicate Ends(rest: seq<int>, base: nat) {
    rest == [] || DigitOf(rest[0]) >= base
  }

  lemma {:induction false} RunOf(s: seq<int>, i: nat, digits: seq<int>, rest: seq<int>, base: nat)
    requires i <= |s| && s[i..] == digits + rest
    requires AreDigits(digits, base) && Ends(rest, base)
    ensures Run(s, i, base) == DigitValues(digits)
    decreases |digits|
  {
    if digits != [] {
      assert s[i] == s[i..][0] == digits[0];
      assert s[i + 1..] == s[i..][1..] == digits[1..] + rest;
      RunOf(s, i + 1, digits[1..], rest, base);
      assert DigitValues(digits) == [DigitOf(digits[0])] + DigitValues(digits[1..]);
    } else {
      assert i < |s| ==> s[i] == s[i..][0] == rest[0];
    }
  }

  lemma {:induction false} BlanksOf(s: seq<int>, i: nat, blanks: seq<int>, rest: seq<int>)
    requires i <= |s| && s[i..] == blanks + rest
    requires (forall k :: 0 <= k < |blanks| ==> IsBlank(blanks[k])) && !IsBlank(At(rest, 0))
    ensures BlanksFrom(s, i) == |blanks|
    decreases |blanks|
  {
    if blanks != [] {
      assert s[i] == s[i..][0] == blanks[0];
      assert s[i + 1..] == s[i..][1..] == blanks[1..] + rest;
      BlanksOf(s, i + 1, blanks[1..], rest);
    } else {
      assert i < |s| ==> s[i] == s[i..][0] == rest[0];
    }
  }

  /** The prefixes that put base b in force when the caller asks for the given base. */
  predicate Introduces(prefix: seq<int>, base: int, b: nat, digits: seq<int>) {
    || (prefix == [] && base == b && 2 <= b <= 36 && (b == 16 ==> At(digits, 0) != Code('0')))
    || (prefix == [Code('0')] && base == b == 16)
    || (|prefix| == 2 && prefix[0] == Code('0') && IsCross(prefix[1]) && (base == 0 || base == 16) && b == 16)
    || (prefix == [Code('0')] && base == 0 && b == 8)
    || (prefix == [] && base == 0 && b == 10 && At(digits, 0) != Code('0'))
  }

  lemma LeadIs(blanks: seq<int>, sign: seq<int>, prefix: seq<int>, tail: seq<int>, base: int, b: nat)
    requires forall k :: 0 <= k < |blanks| ==> IsBlank(blanks[k])
    requires sign == [] || sign == [Code('-')] || sign == [Code('+')]
    requires Introduces(prefix, base, b, tail)
    requires prefix == [] ==> DigitOf(At(tail, 0)) < b
    requires prefix == [Code('0')] ==> !IsCross(At(tail, 0))
    ensures LeadOf(blanks + sign + prefix + tail, base) ==
            Lead(sign == [Code('-')], b, prefix != [], |prefix| == 2, |blanks| + |sign| + |prefix|)
  {
    var s := blanks + sign + prefix + tail;
    var i, j := |blanks|, |blanks| + |sign|;
    assert s[0..] == s == blanks + (sign + prefix + tail);
    assert sign == [] ==> At(sign + prefix + tail, 0) == At(s, i) == if prefix == [] then At(tail, 0) else prefix[0];
    assert sign != [] ==> At(sign + prefix + tail, 0) == At(s, i) == sign[0];
    BlanksOf(s, 0, blanks, sign + prefix + tail);
    assert prefix == [] ==> At(s, j) == At(tail, 0);
    assert prefix != [] ==> At(s, j) == prefix[0];
    assert |prefix| == 1 ==> At(s, j + 1) == At(tail, 0);
    assert |prefix| == 2 ==> At(s, j + 1) == prefix[1];
  }

  /**
   * The grammar: blanks, a sign, the prefix of a base, digits of that base and then
   * anything else stands for the number the digits spell, and reading ends behind them.
   */
  lemma Reads(blanks: seq<int>, sign: seq<int>, prefix: seq<int>, digits: seq<int>, rest: seq<int>, base: int, b: nat)
    requires forall k :: 0 <= k < |blanks| ==> IsBlank(blanks[k])
    requires sign == [] || sign == [Code('-')] || sign == [Code('+')]
    requires digits != [] && AreDigits(digits, b) && Ends(rest, b)
    requires Introduces(prefix, base, b, digits)
    ensures var s, v: int := blanks + sign + prefix + digits + rest, Value(DigitValues(digits), b);
            Meaning(s, base) == (if sign == [Code('-')] then -v else v) &&
            End(s, base) == |s| - |rest|
  {
    var s := blanks + sign + prefix + digits + rest;
    var start := |blanks| + |sign| + |prefix|;
    var tail := digits + rest;
    assert tail[0] == digits[0];
    assert s == blanks + sign + prefix + tail;
    LeadIs(blanks, sign, prefix, tail, base, b);
    assert s[start..] == tail;
    RunOf(s, start, digits, rest, b);
  }

  // ----- reading back -----

  lemma ValueOne(d: nat, b: nat)
    ensures Value([d], b) == d
  {
  }

  lemma DigitMore(s: seq<int>, n: nat, b: nat)
    requires 2 <= b <= 16 && AreDigits(s, b) && Value(DigitValues(s), b) == n / b
    ensures AreDigits(s + [DigitChar(n % b)], b)
    ensures Value(DigitValues(s + [DigitChar(n % b)]), b) == n
  {
    hide Value;
    assert DigitValues(s + [DigitChar(n % b)]) == DigitValues(s) + [n % b];
    ValueNext(DigitValues(s), n % b, b);
  }

  lemma {:induction false} Spelled(n: nat, b: nat)
    requires 2 <= b <= 16
    ensures DigitsOf(n, b) != [] && AreDigits(DigitsOf(n, b), b)
    ensures Value(DigitValues(DigitsOf(n, b)), b) == n
    ensures DigitsOf(n, b)[0] == Code('0') ==> n == 0
  {
    hide DigitsOf, Value;
    DigitsStep(n, b);
    if n < b {
      ValueOne(n, b);
      assert DigitValues([DigitChar(n)]) == [n];
    } else {
      Spelled(n / b, b);
      DigitMore(DigitsOf(n / b, b), n, b);
    }
  }

  lemma ZeroReads(base: int)
    requires base == 0 || base == 16
    ensures Meaning([Code('0')], base) == 0 && End([Code('0')], base) == 1
  {
    assert LeadOf([Code('0')], base) == Lead(false, if base == 0 then 8 else 16, true, false, 1);
  }

  lemma Letters(base: int, d: Long)
    ensures IsString(Text(base, d))
  {
    hide DigitsOf;
    Spelled(Size(d), 10);
    Spelled(AsUnsigned(d), Divisor(base));
  }

  lemma {:induction false} DigitsNamed(n: nat, b: nat, i: nat)
    requires 2 <= b <= 16 && i < |DigitsOf(n, b)|
    ensures exists d: nat :: d < b && DigitsOf(n, b)[i] == Code(LOWER_DIGITS[d])
    ensures n > 0 ==> DigitsOf(n, b)[0] != Code('0')
  {
    hide DigitsOf;
    DigitsStep(n, b);
    if n < b {
      DigitNamed(n);
    } else {
      DigitNamed(n % b);
      DigitsStep(n / b, b);
      DigitsNamed(n / b, b, if i < |DigitsOf(n / b, b)| then i else 0);
    }
  }

  lemma DigitNamed(d: nat)
    requires d < 16
    ensures DigitChar(d) == Code(LOWER_DIGITS[d])
  {
  }

  /** Besides the sign itoa writes digits of its base, letters in lower case, and no leading zero. */
  lemma TextNamed(base: int, d: Long, i: nat)
    requires i < |Text(base, d)|
    ensures if base == Code('d') && d < 0 && i == 0 then Text(base, d)[i] == Code('-')
            else exists n: nat :: n < Divisor(base) && Text(base, d)[i] == Code(LOWER_DIGITS[n])
    ensures d != 0 ==> Text(base, d)[0] != Code('0')
  {
    hide DigitsOf;
    if base == Code('d') && d < 0 {
      if i > 0 { DigitsNamed(Size(d), 10, i - 1); }
    } else {
      DigitsNamed(AsUnsigned(d), Divisor(base), i);
    }
  }

  /** strtol reads back what itoa writes for 'd', for every int, in base 10 and in base 0. */
  lemma SignedRoundTrip(d: Long, base: int)
    requires base == 10 || base == 0
    ensures Clamp(Meaning(Text(Code('d'), d), base)) == d
    ensures End(Text(Code('d'), d), base) == |Text(Code('d'), d)|
  {
    hide DigitsOf, Meaning, End, Value;
    var sign := if d < 0 then [Code('-')] else [];
    var digits := DigitsOf(Size(d), 10);
    Spelled(Size(d), 10);
    DigitsStep(Size(d), 10);
    assert Text(Code('d'), d) == [] + sign + [] + digits + [];
    if base == 0 && d == 0 {
      ZeroReads(0);
    } else {
      Reads([], sign, [], digits, [], base, 10);
    }
  }

  /** strtoul reads back what itoa writes for 'x' in base 16. */
  lemma HexRoundTrip(d: Long)
    ensures AsSigned(ReadUnsigned(Text(Code('x'), d), 16)) == d
    ensures End(Text(Code('x'), d), 16) == |Text(Code('x'), d)|
  {
    hide DigitsOf, Meaning, End, Value;
    UnsignedSpelled(Code('x'), d);
    if d == 0 {
      ZeroReads(16);
    } else {
      Reads([], [], [], Text(Code('x'), d), [], 16, 16);
    }
    NotNegative(Text(Code('x'), d), 16);
  }

  /** And what it writes for 'u', or any letter other than 'd' and 'x', in base 10. */
  lemma UnsignedRoundTrip(c: int, d: Long)
    requires c != Code('d') && c != Code('x')
    ensures AsSigned(ReadUnsigned(Text(c, d), 10)) == d
    ensures End(Text(c, d), 10) == |Text(c, d)|
  {
    hide DigitsOf, Meaning, End, Value;
    UnsignedSpelled(c, d);
    Reads([], [], [], Text(c, d), [], 10, 10);
    NotNegative(Text(c, d), 10);
  }

  lemma UnsignedSpelled(c: int, d: Long)
    requires c != Code('d')
    ensures var s, b := Text(c, d), Divisor(c);
            s != [] && AreDigits(s, b) && Value(DigitValues(s), b) == AsUnsigned(d) &&
            (s[0] == Code('0') ==> d == 0) && (d == 0 ==> s == [Code('0')]) &&
            s == [] + [] + [] + s + []
  {
    hide DigitsOf, Value;
    Spelled(AsUnsigned(d), Divisor(c));
    DigitsStep(AsUnsigned(d), Divisor(c));
  }

  lemma NotNegative(s: seq<int>, base: int)
    requires 0 <= Meaning(s, base) <= ULONG_MAX
    ensures ReadUnsigned(s, base) == Meaning(s, base)
  {
  }
}
