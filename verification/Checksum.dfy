/**
 * The Internet checksum of net/checksum.c: the summing loop with deferred
 * carries, against the one's complement sum of RFC 1071.
 */
module Checksum {
  import opened Seqs

  const ONES := 0xFFFF
  const BASE := 0x1_0000

  // u_int16_t
  type Word = n: nat | n < 0x1_0000

  // One's complement addition: the carry out of bit 15 is added back in at bit 0
  // (RFC 1071, section 1).
  function Plus(a: Word, b: Word): Word {
    if a + b < BASE then a + b else a + b - ONES
  }

  function OnesSum(words: seq<Word>): Word {
    if words == [] then 0 else Plus(OnesSum(words[..|words| - 1]), words[|words| - 1])
  }

  function Total(words: seq<Word>): nat {
    if words == [] then 0 else Total(words[..|words| - 1]) + words[|words| - 1]
  }

  // Zero has two forms, 0 and 0xFFFF; apart from that a word is its residue.
  predicate Stands(w: Word, n: nat) {
    w % ONES == n % ONES && (w == 0 <==> n == 0)
  }

  lemma OneForm(v: Word, w: Word, n: nat)
    requires Stands(v, n) && Stands(w, n)
    ensures v == w
  {
    assert v < ONES ==> v % ONES == v;
    assert w < ONES ==> w % ONES == w;
  }

  lemma {:induction false} SumStands(words: seq<Word>)
    ensures Stands(OnesSum(words), Total(words))
  {
    if words != [] {
      SumStands(words[..|words| - 1]);
      Residues(OnesSum(words[..|words| - 1]), Total(words[..|words| - 1]), words[|words| - 1]);
    }
  }

  lemma Residues(v: Word, n: nat, w: Word)
    requires v % ONES == n % ONES
    ensures Plus(v, w) % ONES == (n + w) % ONES
  {
    assert (v + w) % ONES == (n + w) % ONES by { SumResidue(v, n, w); }
    SumResidue(v + w - ONES, v + w, 0);
  }

  lemma SumResidue(a: int, b: int, c: int)
    requires a % ONES == b % ONES || a == b - ONES
    ensures (a + c) % ONES == (b + c) % ONES
  {
    var q := a / ONES - b / ONES;
    if a % ONES == b % ONES {
      assert a == b + q * ONES;
      Shift(b + c, q);
    } else {
      Shift(b + c, -1);
    }
  }

  lemma Shift(a: int, q: int)
    ensures (a + q * ONES) % ONES == a % ONES
  {
    var k, r := a / ONES, a % ONES;
    assert a + q * ONES == (k + q) * ONES + r;
    Residue(k + q, r);
  }

  lemma Residue(k: int, r: nat)
    requires r < ONES
    ensures (k * ONES + r) % ONES == r
  {
    var n := k * ONES + r;
    assert n == n / ONES * ONES + n % ONES;
    assert (n / ONES - k) * ONES == r - n % ONES;
  }

  lemma {:induction false} TotalBound(words: seq<Word>)
    ensures Total(words) <= |words| * ONES
  {
    if words != [] {
      TotalBound(words[..|words| - 1]);
    }
  }

  // The value kept through one round of the folding loop.
  lemma FoldKeeps(sum: nat)
    requires BASE <= sum
    ensures sum % BASE + sum / BASE < sum
    ensures (sum % BASE + sum / BASE) % ONES == sum % ONES
    ensures 0 < sum % BASE + sum / BASE
  {
    Shift(sum % BASE + sum / BASE, sum / BASE);
  }

  // The words the source's len/2 takes in.
  function Taken(len: int): nat {
    if len < 0 then 0 else len / 2
  }

  method IpSumCalc(len: int, buff: array<Word>) returns (check: Word)
    requires Taken(len) <= buff.Length
    requires Taken(len) < BASE  // the 16-bit index never ends the loop beyond this
    ensures check == ONES - OnesSum(buff[..Taken(len)])
  {
    var sum: nat := 0;
    var i: Word := 0;
    while i < len / 2
      invariant i <= Taken(len)
      invariant sum == Total(buff[..i])
    {
      assert buff[..i + 1][..i] == buff[..i];
      TotalBound(buff[..i + 1]);
      sum := (sum + buff[i]) % 0x1_0000_0000;
      i := (i + 1) % BASE;
    }
    ghost var n := Total(buff[..i]);
    while sum / BASE != 0
      invariant sum % ONES == n % ONES && (sum == 0 <==> n == 0)
      decreases sum
    {
      FoldKeeps(sum);
      sum := sum % BASE + sum / BASE;
    }
    SumStands(buff[..i]);
    OneForm(sum, OnesSum(buff[..i]), n);
    return ONES - sum;
  }

  // A header with its checksum in place sums to all ones, so that summing it again
  // and complementing gives zero.
  ghost predicate Checks(words: seq<Word>) {
    OnesSum(words) == ONES
  }

  function Sealed(words: seq<Word>, at: nat): (r: seq<Word>)
    requires at < |words|
  {
    words[at := ONES - OnesSum(words[at := 0])]
  }

  lemma {:induction false} TotalUpdate(words: seq<Word>, at: nat, w: Word)
    requires at < |words|
    ensures Total(words[at := w]) == Total(words) - words[at] + w
  {
    var n := |words| - 1;
    if at < n {
      TotalUpdate(words[..n], at, w);
      assert words[at := w][..n] == words[..n][at := w];
    } else {
      assert words[at := w][..n] == words[..n];
    }
  }

  lemma SealedChecks(words: seq<Word>, at: nat)
    requires at < |words|
    ensures Checks(Sealed(words, at))
  {
    var blank := words[at := 0];
    var c: Word := ONES - OnesSum(blank);
    assert Sealed(words, at) == blank[at := c];
    TotalUpdate(blank, at, c);
    SumStands(blank);
    SumStands(blank[at := c]);
    SumResidue(OnesSum(blank), Total(blank), c);
    OneForm(OnesSum(blank[at := c]), ONES, Total(blank) + c);
  }

  // ip_checksum: 20 bytes of header, the checksum in word 5.
  method IpChecksum(frame: array<Word>)
    requires 10 <= frame.Length
    modifies frame
    ensures frame[..] == Sealed(old(frame[..10]), 5) + old(frame[10..])
    ensures Checks(frame[..10])
  {
    ghost var was := frame[..10];
    frame[5] := 0;
    assert frame[..10] == was[5 := 0];
    var check := IpSumCalc(20, frame);
    frame[5] := check;
    assert frame[..10] == Sealed(was, 5);
    SealedChecks(was, 5);
  }

  // Changing one word of a header that checks goes unseen exactly when the word
  // was exchanged for the other form of zero and the header is not zero throughout.
  lemma OneWordChanged(words: seq<Word>, at: nat, w: Word)
    requires at < |words| && Checks(words)
    ensures Checks(words[at := w]) <==>
            w == words[at] || (w + words[at] == ONES && w * words[at] == 0 && 0 < Total(words[at := w]))
  {
    hide OnesSum, Total;
    TotalUpdate(words, at, w);
    ChecksTotal(words);
    ChecksTotal(words[at := w]);
    Exchanged(Total(words) - words[at], words[at], w);
  }

  lemma ChecksTotal(words: seq<Word>)
    ensures Checks(words) <==> Total(words) % ONES == 0 && Total(words) > 0
  {
    hide OnesSum, Total;
    SumStands(words);
    var v := OnesSum(words);
    assert v < ONES ==> v % ONES == v;
    if Total(words) % ONES == 0 && Total(words) > 0 { OneForm(v, ONES, Total(words)); }
  }

  lemma Exchanged(rest: int, v: Word, w: Word)
    requires (rest + v) % ONES == 0 && rest + v > 0 && rest >= 0
    ensures (rest + w) % ONES == 0 && rest + w > 0 <==> w == v || (w + v == ONES && w * v == 0 && 0 < rest + w)
  {
    ZeroProduct(w, v);
    if w + v == ONES && (w == 0 || v == 0) { Beside(rest + v); }
    if (rest + w) % ONES == 0 { Multiples(rest + v, rest + w); }
  }

  lemma ZeroProduct(w: nat, v: nat)
    ensures w * v == 0 <==> w == 0 || v == 0
  {
    if w > 0 && v > 0 { assert w * v >= w; }
  }

  lemma Beside(a: int)
    requires a % ONES == 0
    ensures (a - ONES) % ONES == 0 && (a + ONES) % ONES == 0
  {
    SumResidue(a - ONES, a, 0);
    SumResidue(a, a + ONES, 0);
  }

  lemma Multiples(a: nat, b: nat)
    requires a % ONES == 0 && b % ONES == 0
    requires -ONES <= a - b <= ONES
    ensures a == b || a - b == ONES || b - a == ONES
  {
    var p, q := a / ONES, b / ONES;
    assert a == p * ONES && b == q * ONES;
    assert a - b == (p - q) * ONES;
  }

  lemma WithoutOne(words: seq<Word>, k: nat)
    requires k < |words|
    ensures Total(words) == Total(Without(words, k)) + words[k]
    ensures multiset(words) == multiset(Without(words, k)) + multiset{words[k]}
  {
    hide Total;
    var l, w, r := words[..k], [words[k]], words[k + 1..];
    assert words == l + w + r;
    TotalJoin(l + w, r);
    TotalJoin(l, w);
    TotalJoin(l, r);
    TotalOne(words[k]);
  }

  lemma TotalOne(w: Word)
    ensures Total([w]) == w
  {
    assert [w][..0] == [];
  }

  // The order of the words does not matter (RFC 1071, section 2).
  lemma {:induction false} TotalOrder(a: seq<Word>, b: seq<Word>)
    requires multiset(a) == multiset(b)
    ensures Total(a) == Total(b)
    decreases |a|
  {
    hide Total;
    if a == [] {
      assert |multiset(b)| == 0;
    } else {
      assert a[0] in multiset(b);
      var k :| 0 <= k < |b| && b[k] == a[0];
      WithoutOne(a, 0);
      WithoutOne(b, k);
      var m := multiset{a[0]};
      assert multiset(Without(a, 0)) == multiset(a) - m == multiset(Without(b, k));
      assert |Without(a, 0)| < |a|;
      TotalOrder(Without(a, 0), Without(b, k));
    }
  }

  lemma {:induction false} TotalJoin(a: seq<Word>, b: seq<Word>)
    ensures Total(a + b) == Total(a) + Total(b)
  {
    if b == [] {
      assert a + b == a;
    } else {
      TotalJoin(a, b[..|b| - 1]);
      assert (a + b)[..|a + b| - 1] == a + b[..|b| - 1];
    }
  }

  lemma OrderIndependent(a: seq<Word>, b: seq<Word>)
    requires multiset(a) == multiset(b)
    ensures OnesSum(a) == OnesSum(b)
  {
    TotalOrder(a, b);
    SumStands(a);
    SumStands(b);
    OneForm(OnesSum(a), OnesSum(b), Total(a));
  }

  // The two bytes of a word exchanged.
  function Swapped(w: Word): Word {
    w % 256 * 256 + w / 256
  }

  function AllSwapped(words: seq<Word>): (r: seq<Word>)
    ensures |r| == |words| && forall i :: 0 <= i < |words| ==> r[i] == Swapped(words[i])
  {
    if words == [] then [] else AllSwapped(words[..|words| - 1]) + [Swapped(words[|words| - 1])]
  }

  lemma SwapTimes(w: Word)
    ensures Swapped(w) % ONES == 256 * (w as int) % ONES
    ensures Swapped(w) == 0 <==> w == 0
  {
    assert w == w / 256 * 256 + w % 256;
    assert 256 * (w as int) == Swapped(w) + w / 256 * ONES;
    Shift(Swapped(w), w / 256);
  }

  lemma {:induction false} TotalSwapped(words: seq<Word>)
    ensures Total(AllSwapped(words)) % ONES == 256 * Total(words) % ONES
    ensures Total(AllSwapped(words)) == 0 <==> Total(words) == 0
  {
    if words != [] {
      var n := |words| - 1;
      var s := AllSwapped(words);
      TotalSwapped(words[..n]);
      SwapTimes(words[n]);
      assert s[..n] == AllSwapped(words[..n]);
      SumResidue(Total(s[..n]), 256 * Total(words[..n]), s[n]);
      ghost var sn: int, wn: int := s[n], 256 * (words[n] as int);
      SumResidue(sn, wn, 256 * Total(words[..n]));
    }
  }

  // Summing the words with their bytes exchanged gives the sum with its bytes
  // exchanged: the host need not know which byte the network sends first
  // (RFC 1071, section 2).
  lemma ByteOrderIndependent(words: seq<Word>)
    ensures OnesSum(AllSwapped(words)) == Swapped(OnesSum(words))
  {
    var n := Total(words);
    TotalSwapped(words);
    SumStands(words);
    SumStands(AllSwapped(words));
    SwapTimes(OnesSum(words));
    var q := n / ONES - OnesSum(words) / ONES;
    assert n == OnesSum(words) + q * ONES;
    Shift(256 * OnesSum(words), 256 * q);
    OneForm(OnesSum(AllSwapped(words)), Swapped(OnesSum(words)), Total(AllSwapped(words)));
  }
}
