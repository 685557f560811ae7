/** The merge sort of profile records, on a singly linked list, in place. */
module PfSort {
  import opened Seqs
  import Strcmp

  const NIL := 0

  /** What a record is sorted by: its region, file and line.  Line 0 belongs to the "<>" file. */
  datatype Rec = Rec(vm: int, file: seq<int>, line: nat)

  ghost predicate Proper(r: Rec) { Strcmp.IsString(r.file) && (r.line == 0 ==> r.file == []) }

  /** The comparison in pfsort: `a` goes first when it is negative. */
  function Cmp(a: Rec, b: Rec): int {
    if a.line == 0 && b.line == 0 then (if a.vm > b.vm then 1 else -1)
    else if a.line == 0 then -1
    else if b.line == 0 then 1
    else if Strcmp.Order(a.file, b.file) != 0 then Strcmp.Order(a.file, b.file)
    else if a.line != b.line then a.line - b.line
    else if a.vm > b.vm then 1 else -1
  }

  /** On different records exactly one of the two directions is negative. */
  lemma CmpOpposite(a: Rec, b: Rec)
    requires Proper(a) && Proper(b) && a != b
    ensures Cmp(a, b) < 0 <==> !(Cmp(b, a) < 0)
  {
    Strcmp.OrderOpposite(a.file, b.file);
    Strcmp.OrderOpposite(b.file, a.file);
    Strcmp.OrderZero(a.file, b.file);
    Strcmp.OrderZero(b.file, a.file);
  }

  lemma CmpTransitive(a: Rec, b: Rec, c: Rec)
    requires Proper(a) && Proper(b) && Proper(c) && a != b && b != c && a != c
    requires Cmp(a, b) < 0 && Cmp(b, c) < 0
    ensures Cmp(a, c) < 0
  {
    Strcmp.OrderZero(a.file, b.file);
    Strcmp.OrderZero(b.file, c.file);
    Strcmp.OrderZero(a.file, c.file);
    if Strcmp.Order(a.file, b.file) < 0 && Strcmp.Order(b.file, c.file) < 0 {
      Strcmp.OrderTransitive(a.file, b.file, c.file);
    }
  }

  function Nth(s: seq<int>, k: int): int { if 0 <= k < |s| then s[k] else NIL }

  function Next(nx: map<int, int>, p: int): int { if p in nx then nx[p] else NIL }

  /** p heads the linked list of the nodes s. */
  ghost predicate Chain(nx: map<int, int>, p: int, s: seq<int>) {
    p == Nth(s, 0) && forall i :: 0 <= i < |s| ==> Next(nx, s[i]) == Nth(s, i + 1)
  }

  /** Proper records, no two alike. */
  ghost predicate Records(rec: int -> Rec, s: seq<int>) {
    && (forall x :: x in s ==> Proper(rec(x)))
    && forall x, y :: x in s && y in s && x != y ==> rec(x) != rec(y)
  }

  ghost predicate Sorted(rec: int -> Rec, s: seq<int>) {
    forall i, j :: 0 <= i < j < |s| ==> Cmp(rec(s[i]), rec(s[j])) < 0
  }

  ghost predicate Below(rec: int -> Rec, s: seq<int>, u: seq<int>) {
    forall x, y :: x in s && y in u ==> Cmp(rec(x), rec(y)) < 0
  }

  lemma ChainCons(nx: map<int, int>, p: int, s: seq<int>)
    requires Chain(nx, p, s) && Addresses(s)
    ensures p == NIL <==> s == []
    ensures s != [] ==> p == s[0] && Chain(nx, Next(nx, p), s[1..]) && Addresses(s[1..]) && p !in s[1..]
    ensures multiset(s) == if s == [] then multiset{} else multiset{s[0]} + multiset(s[1..])
  {
    if s != [] {
      assert s == [s[0]] + s[1..];
      assert Nth(s[1..], 0) == Nth(s, 1);
      forall i | 0 <= i < |s[1..]| ensures Next(nx, s[1..][i]) == Nth(s[1..], i + 1) { assert s[1..][i] == s[i + 1]; }
    }
  }

  lemma ChainFrame(nx: map<int, int>, nx': map<int, int>, p: int, s: seq<int>)
    requires Chain(nx, p, s) && forall x :: x in s ==> Next(nx', x) == Next(nx, x)
    ensures Chain(nx', p, s)
  {
  }

  /** A node is put in front of a list. */
  lemma ChainPush(nx: map<int, int>, p: int, s: seq<int>, x: int)
    requires Chain(nx, p, s) && Addresses(s) && x !in s && x != NIL
    ensures Chain(nx[x := p], x, [x] + s) && Addresses([x] + s)
    ensures multiset([x] + s) == multiset{x} + multiset(s)
  {
  }

  class Profile {
    const rec: int -> Rec
    var next: map<int, int>

    constructor (rec: int -> Rec, next: map<int, int>)
      ensures this.rec == rec && this.next == next
    {
      this.rec, this.next := rec, next;
    }

    /** The head of one list becomes the head of another. */
    method MoveHead(pf: int, top: int, other: int, ghost s: seq<int>, ghost rest: seq<int>, ghost a: seq<int>,
                    ghost b: seq<int>) returns (nxt: int)
      requires Chain(next, pf, rest) && Chain(next, top, a) && Chain(next, other, b) && rest != []
      requires Addresses(rest) && Addresses(a) && Addresses(b) && Addresses(s)
      requires multiset(rest) + multiset(a) + multiset(b) == multiset(s)
      modifies `next
      ensures pf == rest[0] && Chain(next, nxt, rest[1..]) && Chain(next, pf, [pf] + a) && Chain(next, other, b)
      ensures Addresses(rest[1..]) && Addresses([pf] + a)
      ensures multiset(rest[1..]) + multiset([pf] + a) + multiset(b) == multiset(s)
      ensures forall x :: x !in s ==> Next(next, x) == Next(old(next), x)
    {
      hide Chain, Addresses;
      Disjoint(s, rest, a, b);
      ChainCons(next, pf, rest);
      HeadNotNil(rest);
      nxt := Next(next, pf);
      ChainPush(next, top, a, pf);
      ghost var nx0 := next;
      next := next[pf := top];
      ChainFrame(nx0, next, nxt, rest[1..]);
      ChainFrame(nx0, next, other, b);
    }

    /** The partition: every other node to each of two lists. */
    method Partition(pf0: int, ghost s: seq<int>) returns (one: int, two: int, ghost a: seq<int>, ghost b: seq<int>)
      requires Chain(next, pf0, s) && Addresses(s) && |s| >= 2
      modifies `next
      ensures Chain(next, one, a) && Chain(next, two, b) && Addresses(a) && Addresses(b)
      ensures multiset(a) + multiset(b) == multiset(s) && 0 < |b| <= |a| <= |b| + 1
      ensures forall x :: x !in s ==> Next(next, x) == Next(old(next), x)
    {
      hide Addresses, Chain;
      var pf := pf0;
      ghost var rest := s;
      one, two, a, b := NIL, NIL, [], [];
      EmptyChain(next);
      while pf != NIL
        invariant Chain(next, pf, rest) && Chain(next, one, a) && Chain(next, two, b)
        invariant Addresses(rest) && Addresses(a) && Addresses(b)
        invariant multiset(rest) + multiset(a) + multiset(b) == multiset(s)
        invariant |b| <= |a| <= |b| + 1 && (rest != [] ==> |a| == |b|)
        invariant forall x :: x !in s ==> Next(next, x) == Next(old(next), x)
        decreases |rest|
      {
        ChainCons(next, pf, rest);
        var nxt := MoveHead(pf, one, two, s, rest, a, b);
        one, a, rest := pf, [pf] + a, rest[1..];
        pf := nxt;
        ChainCons(next, pf, rest);
        if pf != NIL {
          nxt := MoveHead(pf, two, one, s, rest, b, a);
          two, b, rest := pf, [pf] + b, rest[1..];
          pf := nxt;
        }
      }
      ChainCons(next, pf, rest);
      assert |multiset(s)| == |s| && |multiset(a)| == |a| && |multiset(b)| == |b|;
    }

    /** The head of list a is appended to the merged part r. */
    method Append(pf: int, last: int, one: int, two: int, ghost s: seq<int>, ghost r: seq<int>, ghost a: seq<int>,
                  ghost b: seq<int>)
      returns (pf': int, one': int)
      requires Merging(next, pf, last, r) && Chain(next, one, a) && Chain(next, two, b) && a != []
      requires Addresses(s) && Addresses(a) && Addresses(b) && multiset(r) + multiset(a) + multiset(b) == multiset(s)
      modifies `next
      ensures Merging(next, pf', one, r + [a[0]]) && Chain(next, one', a[1..]) && Chain(next, two, b) && one == a[0]
      ensures Addresses(a[1..]) && multiset(r + [a[0]]) + multiset(a[1..]) + multiset(b) == multiset(s)
      ensures forall x :: x !in s ==> Next(next, x) == Next(old(next), x)
    {
      hide Chain, Addresses;
      Disjoint(s, r, a, b);
      ChainCons(next, one, a);
      one' := Next(next, one);
      pf' := pf;
      ghost var nx0 := next;
      MergingMore(next, pf, last, r, one);
      if pf == NIL {
        pf' := one;
      } else {
        next := next[last := one];
        LastOf(nx0, pf, last, r);
      }
      ChainFrame(nx0, next, one', a[1..]);
      ChainFrame(nx0, next, two, b);
    }

    /** One round of the merge, in which the head of list a comes first.  When that was its last node,
        the other list is attached and the merge is complete. */
    method Take(pf: int, last: int, one: int, two: int, ghost s: seq<int>, ghost r: seq<int>, ghost a: seq<int>,
                ghost b: seq<int>)
      returns (pf': int, one': int)
      requires Merging(next, pf, last, r) && Chain(next, one, a) && Chain(next, two, b) && a != [] && b != []
      requires Addresses(s) && Addresses(a) && Addresses(b) && multiset(r) + multiset(a) + multiset(b) == multiset(s)
      requires Records(rec, s) && Sorted(rec, r) && Sorted(rec, a) && Sorted(rec, b) && Below(rec, r, a) &&
               Below(rec, r, b)
      requires Cmp(rec(one), rec(two)) < 0
      modifies `next
      ensures one' == NIL <==> a[1..] == []
      ensures one' == NIL ==>
              Chain(next, pf', r + [a[0]] + b) && Sorted(rec, r + [a[0]] + b) && multiset(r + [a[0]] + b) == multiset(s)
      ensures one' != NIL ==>
                && Merging(next, pf', one, r + [a[0]]) && Chain(next, one', a[1..]) && Chain(next, two, b)
                && Sorted(rec, r + [a[0]]) && Sorted(rec, a[1..]) && Below(rec, r + [a[0]], a[1..]) &&
                   Below(rec, r + [a[0]], b)
      ensures Addresses(a[1..]) && multiset(r + [a[0]]) + multiset(a[1..]) + multiset(b) == multiset(s)
      ensures forall x :: x !in s ==> Next(next, x) == Next(old(next), x)
    {
      hide Chain, Addresses, Sorted, Below, Records, Merging;
      Heads(rec, next, one, two, s, r, a, b);
      Chosen(rec, s, r, a, b);
      pf', one' := Append(pf, last, one, two, s, r, a, b);
      ChainCons(next, one', a[1..]);
      if one' == NIL {
        Finish(rec, next, pf', one, two, s, r + [a[0]], b);
        next := next[one := two];
      }
    }

    /** The merge of two sorted lists. */
    method Merge(one0: int, two0: int, ghost s: seq<int>, ghost a0: seq<int>, ghost b0: seq<int>)
      returns (pf: int, ghost r: seq<int>)
      requires Chain(next, one0, a0) && Chain(next, two0, b0) && a0 != [] && b0 != []
      requires Addresses(s) && Addresses(a0) && Addresses(b0) && multiset(a0) + multiset(b0) == multiset(s)
      requires Records(rec, s) && Sorted(rec, a0) && Sorted(rec, b0)
      modifies `next
      ensures Chain(next, pf, r) && Sorted(rec, r) && multiset(r) == multiset(s)
      ensures forall x :: x !in s ==> Next(next, x) == Next(old(next), x)
    {
      hide Chain, Addresses, Sorted, Below, Records, Merging;
      var one, two, last := one0, two0, NIL;
      ghost var a, b := a0, b0;
      pf, r := NIL, [];
      MergingNone(rec, next, a, b);
      while true
        invariant Merging(next, pf, last, r) && Chain(next, one, a) && Chain(next, two, b) && a != [] && b != []
        invariant Addresses(a) && Addresses(b) && multiset(r) + multiset(a) + multiset(b) == multiset(s)
        invariant Sorted(rec, r) && Sorted(rec, a) && Sorted(rec, b) && Below(rec, r, a) && Below(rec, r, b)
        invariant forall x :: x !in s ==> Next(next, x) == Next(old(next), x)
        decreases |a| + |b|
      {
        Heads(rec, next, one, two, s, r, a, b);
        var first := Cmp(rec(one), rec(two)) < 0;
        if first {
          var x := one;
          pf, one := Take(pf, last, one, two, s, r, a, b);
          if one == NIL { r := r + [a[0]] + b; return; }
          last, r, a := x, r + [a[0]], a[1..];
        } else {
          var x := two;
          pf, two := Take(pf, last, two, one, s, r, b, a);
          if two == NIL { r := r + [b[0]] + a; return; }
          last, r, b := x, r + [b[0]], b[1..];
        }
      }
    }

    /** pfsort. */
    method Sort(pf: int, ghost s: seq<int>) returns (head: int, ghost r: seq<int>)
      requires Chain(next, pf, s) && Addresses(s) && s != [] && Records(rec, s)
      modifies `next
      ensures Chain(next, head, r) && Sorted(rec, r) && multiset(r) == multiset(s)
      ensures forall x :: x !in s ==> Next(next, x) == Next(old(next), x)
      decreases |s|
    {
      hide Records, Below, Merging;
      if Next(next, pf) == NIL {
        OnlyOne(next, pf, s);
        return pf, s;
      }
      MoreThanOne(next, pf, s);
      var one, two;
      ghost var a, b, nx0;
      one, two, a, b := Partition(pf, s);
      Halves(rec, s, a, b);
      nx0 := next;
      ghost var a', b';
      one, a' := Sort(one, a);
      ChainFrame(nx0, next, two, b);
      nx0 := next;
      two, b' := Sort(two, b);
      SameNodes(a, a');
      SameNodes(b, b');
      ChainFrame(nx0, next, one, a');
      head, r := Merge(one, two, s, a', b');
    }
  }

  /** The merged part so far: linked up to its last node. */
  ghost predicate Merging(nx: map<int, int>, pf: int, last: int, r: seq<int>) {
    && (pf == NIL <==> r == [])
    && (r != [] ==> pf == r[0] && last == r[|r| - 1])
    && (forall i :: 0 <= i < |r| - 1 ==> Next(nx, r[i]) == r[i + 1])
    && Addresses(r)
  }

  lemma HeadNotNil(s: seq<int>)
    requires Addresses(s) && s != []
    ensures s[0] != NIL
  {
  }

  lemma EmptyChain(nx: map<int, int>)
    ensures Chain(nx, NIL, []) && Addresses([])
  {
  }

  /** Parts of a list without repetitions have no node in common. */
  lemma Disjoint(s: seq<int>, rest: seq<int>, a: seq<int>, b: seq<int>)
    requires Addresses(s) && multiset(rest) + multiset(a) + multiset(b) == multiset(s)
    ensures forall x :: x in rest ==> x !in a && x !in b && x in s
    ensures forall x :: x in a ==> x !in b && x in s
    ensures forall x :: x in b ==> x in s
  {
    forall x | x in rest || x in a || x in b
      ensures multiset(rest)[x] + multiset(a)[x] + multiset(b)[x] == multiset(s)[x] == 1
    {
      Once(s, x);
      assert x in multiset(rest) || x in multiset(a) || x in multiset(b);
    }
    assert forall x :: x in rest ==> x in multiset(rest);
    assert forall x :: x in a ==> x in multiset(a);
    assert forall x :: x in b ==> x in multiset(b);
    assert forall x :: x in multiset(s) ==> x in s;
  }

  lemma {:induction false} Once(s: seq<int>, x: int)
    requires Addresses(s)
    ensures multiset(s)[x] <= 1
  {
    if s != [] {
      Once(s[1..], x);
      assert s == [s[0]] + s[1..];
    }
  }

  lemma MergingNone(rec: int -> Rec, nx: map<int, int>, a: seq<int>, b: seq<int>)
    ensures Merging(nx, NIL, NIL, []) && Sorted(rec, []) && Below(rec, [], a) && Below(rec, [], b)
  {
  }

  lemma MergingMore(nx: map<int, int>, pf: int, last: int, r: seq<int>, x: int)
    requires Merging(nx, pf, last, r) && x !in r && x != NIL
    ensures if pf == NIL then Merging(nx, x, x, r + [x]) else Merging(nx[last := x], pf, x, r + [x])
  {
  }

  lemma LastOf(nx: map<int, int>, pf: int, last: int, r: seq<int>)
    requires Merging(nx, pf, last, r) && pf != NIL
    ensures last in r
  {
  }

  /** The two heads that are compared. */
  lemma Heads(rec: int -> Rec, nx: map<int, int>, one: int, two: int, s: seq<int>, r: seq<int>, a: seq<int>,
              b: seq<int>)
    requires Chain(nx, one, a) && Chain(nx, two, b) && a != [] && b != [] && Records(rec, s)
    requires Addresses(s) && multiset(r) + multiset(a) + multiset(b) == multiset(s)
    ensures one == a[0] && two == b[0]
    ensures Cmp(rec(one), rec(two)) < 0 <==> !(Cmp(rec(two), rec(one)) < 0)
    ensures multiset(r) + multiset(b) + multiset(a) == multiset(s)
  {
    hide Addresses;
    Disjoint(s, r, a, b);
    assert a[0] in a && b[0] in b;
    CmpOpposite(rec(one), rec(two));
  }

  /** The smaller of the two heads is below everything that is left. */
  lemma Chosen(rec: int -> Rec, s: seq<int>, r: seq<int>, a: seq<int>, b: seq<int>)
    requires Records(rec, s) && Addresses(s) && Addresses(a) && Addresses(b) &&
             multiset(r) + multiset(a) + multiset(b) == multiset(s)
    requires Sorted(rec, r) && Sorted(rec, a) && Sorted(rec, b) && Below(rec, r, a) && Below(rec, r, b)
    requires a != [] && b != [] && Cmp(rec(a[0]), rec(b[0])) < 0
    ensures Sorted(rec, r + [a[0]]) && Sorted(rec, a[1..])
    ensures Below(rec, r + [a[0]], a[1..]) && Below(rec, r + [a[0]], b)
  {
    hide Addresses;
    Disjoint(s, r, a, b);
    var x, r' := a[0], r + [a[0]];
    assert x in a && b[0] in b;
    assert forall y :: y in r' <==> y in r || y == x;
    forall y | y in a[1..] ensures Cmp(rec(x), rec(y)) < 0 && y in a {
      var i :| 0 <= i < |a[1..]| && a[1..][i] == y;
      assert a[i + 1] == y;
    }
    forall y | y in b ensures Cmp(rec(x), rec(y)) < 0 {
      var i :| 0 <= i < |b| && b[i] == y;
      if i > 0 {
        DistinctAt(b, 0, i);
        assert Cmp(rec(b[0]), rec(b[i])) < 0;
        CmpTransitive(rec(x), rec(b[0]), rec(y));
      }
    }
    assert Sorted(rec, a[1..]) by {
      forall i, j | 0 <= i < j < |a[1..]| ensures Cmp(rec(a[1..][i]), rec(a[1..][j])) < 0 {
        assert a[1..][i] == a[i + 1] && a[1..][j] == a[j + 1];
      }
    }
    forall i, j | 0 <= i < j < |r'| ensures Cmp(rec(r'[i]), rec(r'[j])) < 0 {
      assert r'[i] == r[i] && r[i] in r;
    }
  }

  lemma DistinctAt(s: seq<int>, i: int, j: int)
    requires Addresses(s) && 0 <= i < j < |s|
    ensures s[i] != s[j]
  {
  }

  lemma Finish(rec: int -> Rec, nx: map<int, int>, pf: int, last: int, two: int, s: seq<int>, r: seq<int>, b: seq<int>)
    requires Merging(nx, pf, last, r) && r != [] && Chain(nx, two, b) && b != []
    requires Addresses(s) && multiset(r) + multiset(b) == multiset(s)
    requires Sorted(rec, r) && Sorted(rec, b) && Below(rec, r, b)
    ensures Chain(nx[last := two], pf, r + b) && Sorted(rec, r + b) && multiset(r + b) == multiset(s) && last in s
  {
    assert multiset(r) + multiset(b) + multiset([]) == multiset(s);
    Disjoint(s, r, b, []);
    var nx', c := nx[last := two], r + b;
    assert last in r;
    forall i | 0 <= i < |c| ensures Next(nx', c[i]) == Nth(c, i + 1) {
      if i >= |r| { assert c[i] == b[i - |r|] && c[i] in b; }
    }
    forall i, j | 0 <= i < j < |c| ensures Cmp(rec(c[i]), rec(c[j])) < 0 {
      if i < |r| && j >= |r| { assert c[i] in r && c[j] == b[j - |r|] && c[j] in b; }
    }
  }

  lemma OnlyOne(nx: map<int, int>, pf: int, s: seq<int>)
    requires Chain(nx, pf, s) && Addresses(s) && s != [] && Next(nx, pf) == NIL
    ensures |s| == 1
  {
    assert Next(nx, s[0]) == Nth(s, 1);
  }

  lemma MoreThanOne(nx: map<int, int>, pf: int, s: seq<int>)
    requires Chain(nx, pf, s) && s != [] && Next(nx, pf) != NIL
    ensures |s| >= 2
  {
    assert Next(nx, s[0]) == Nth(s, 1);
  }

  /** Both halves are shorter lists of the same records. */
  lemma Halves(rec: int -> Rec, s: seq<int>, a: seq<int>, b: seq<int>)
    requires Addresses(s) && Records(rec, s) && multiset(a) + multiset(b) == multiset(s) && 0 < |b| <= |a|
    ensures Records(rec, a) && Records(rec, b) && |a| < |s| && |b| < |s|
    ensures forall x :: x in a ==> x !in b && x in s
    ensures forall x :: x in b ==> x in s
  {
    assert multiset(a) + multiset(b) + multiset([]) == multiset(s);
    Disjoint(s, a, b, []);
    assert |multiset(s)| == |s| && |multiset(a)| == |a| && |multiset(b)| == |b|;
  }

  lemma SameNodes(a: seq<int>, b: seq<int>)
    requires multiset(a) == multiset(b) && Addresses(a)
    ensures |a| == |b| && (forall x :: x in a <==> x in b) && Addresses(b)
  {
    assert |multiset(a)| == |a| && |multiset(b)| == |b|;
    forall x ensures x in a <==> x in b { assert x in a <==> x in multiset(a); assert x in b <==> x in multiset(b); }
    forall i | 0 <= i < |b| ensures b[i] != NIL { assert b[i] in b; }
    forall i, j | 0 <= i < j < |b| ensures b[i] != b[j] {
      if b[i] == b[j] {
        Twice(b, i, j);
        Once(a, b[i]);
      }
    }
  }

  lemma Twice(b: seq<int>, i: int, j: int)
    requires 0 <= i < j < |b| && b[i] == b[j]
    ensures multiset(b)[b[i]] >= 2
  {
    var u, v := b[..j], b[j..];
    assert b == u + v && u[i] == b[i] && v[0] == b[j];
    assert b[i] in multiset(u) && b[i] in multiset(v);
  }

  /** In a sorted list the records of one file are together, and those of line 0 are first. */
  lemma FilesTogether(rec: int -> Rec, s: seq<int>, i: int, j: int, k: int)
    requires Sorted(rec, s) && 0 <= i < j < k < |s| && (forall x :: x in s ==> Proper(rec(x)))
    ensures rec(s[i]).file == rec(s[k]).file ==> rec(s[j]).file == rec(s[i]).file
    ensures rec(s[j]).line == 0 ==> rec(s[i]).line == 0
  {
    var x, y, z := s[i], s[j], s[k];
    assert x in s && y in s && z in s;
    FileBetween(rec(x), rec(y), rec(z));
  }

  /** The lines of one file ascend, and so do the regions of one line. */
  lemma LinesAscend(rec: int -> Rec, s: seq<int>, i: int, j: int)
    requires Sorted(rec, s) && 0 <= i < j < |s| && (forall x :: x in s ==> Proper(rec(x)))
    requires rec(s[i]).file == rec(s[j]).file
    ensures rec(s[i]).line <= rec(s[j]).line
    ensures rec(s[i]).line == rec(s[j]).line ==> rec(s[i]).vm <= rec(s[j]).vm
  {
    var x, y := s[i], s[j];
    assert x in s && y in s;
    assert Cmp(rec(x), rec(y)) < 0;
    Strcmp.OrderZero(rec(x).file, rec(y).file);
  }

  lemma FileBetween(a: Rec, b: Rec, c: Rec)
    requires Proper(a) && Proper(b) && Proper(c) && Cmp(a, b) < 0 && Cmp(b, c) < 0
    ensures a.file == c.file ==> b.file == a.file
    ensures b.line == 0 ==> a.line == 0
  {
    Strcmp.OrderOpposite(a.file, b.file);
    Strcmp.OrderOpposite(b.file, a.file);
    Strcmp.OrderZero(a.file, b.file);
    Strcmp.OrderZero(b.file, a.file);
  }
}
