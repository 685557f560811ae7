/** The repository's string comparison and the string-keyed indexes that rely on it. */
module Strcmp {
  import Avl

  /** The characters of a C string before its terminator. */
  ghost predicate IsString(s: seq<int>) {
    forall i :: 0 <= i < |s| ==> -128 <= s[i] < 128 && s[i] != 0
  }

  /** The order of strings: the end of a string is lowest, other characters descend. */
  function Order(a: seq<int>, b: seq<int>): int {
    if a == [] && b == [] then 0
    else if b == [] then 1
    else if a == [] then -1
    else if a[0] != b[0] then b[0] - a[0]
    else Order(a[1..], b[1..])
  }

  /** Character i, or the terminator. */
  function At(s: seq<int>, i: nat): int { if i < |s| then s[i] else 0 }

  method StrCmp(a: seq<int>, b: seq<int>) returns (r: int)
    requires IsString(a) && IsString(b)
    ensures r == Order(a, b)
  {
    var i := 0;
    while At(a, i) != 0 && At(b, i) != 0
      invariant 0 <= i <= |a| && i <= |b| && Order(a, b) == Order(a[i..], b[i..])
      decreases |a| - i
    {
      if At(a, i) != At(b, i) {
        return At(b, i) - At(a, i);
      }
      assert a[i..][1..] == a[i + 1..] && b[i..][1..] == b[i + 1..];
      i := i + 1;
    }
    assert i < |a| ==> a[i..] != [];
    assert i < |b| ==> b[i..] != [];
    if At(a, i) == At(b, i) {
      r := 0;
    } else {
      r := if At(a, i) != 0 then 1 else -1;
    }
  }

  /** The result at the first difference: a string that ends there is the smaller one, and of two
      characters the greater one comes first. */
  lemma {:induction false} FirstDifference(a: seq<int>, b: seq<int>, i: nat)
    requires IsString(a) && IsString(b) && i <= |a| && i <= |b| && a[..i] == b[..i] && At(a, i) != At(b, i)
    ensures i == |a| ==> Order(a, b) == -1
    ensures i == |b| ==> Order(a, b) == 1
    ensures i < |a| && i < |b| ==> Order(a, b) == b[i] - a[i]
  {
    if i > 0 {
      assert a[..i][0] == b[..i][0];
      assert a[1..][..i - 1] == a[..i][1..] == b[..i][1..] == b[1..][..i - 1];
      FirstDifference(a[1..], b[1..], i - 1);
    }
  }

  lemma {:induction false} OrderZero(a: seq<int>, b: seq<int>)
    ensures Order(a, b) == 0 <==> a == b
  {
    if a != [] && b != [] && a[0] == b[0] {
      OrderZero(a[1..], b[1..]);
      assert a == [a[0]] + a[1..] && b == [b[0]] + b[1..];
    }
  }

  lemma {:induction false} OrderOpposite(a: seq<int>, b: seq<int>)
    ensures Order(a, b) < 0 <==> Order(b, a) > 0
  {
    if a != [] && b != [] && a[0] == b[0] { OrderOpposite(a[1..], b[1..]); }
  }

  lemma {:induction false} OrderTransitive(a: seq<int>, b: seq<int>, c: seq<int>)
    requires Order(a, b) < 0 && Order(b, c) < 0
    ensures Order(a, c) < 0
  {
    if a != [] && b != [] && c != [] && a[0] == b[0] == c[0] {
      OrderTransitive(a[1..], b[1..], c[1..]);
    }
  }

  /** So string keys are as good as numbers to an AVL index. */
  lemma StringsOrdered()
    ensures Avl.TotalOrder(Order)
  {
    forall a, b ensures Order(a, b) == 0 <==> a == b { OrderZero(a, b); }
    forall a, b ensures Order(a, b) < 0 <==> Order(b, a) > 0 { OrderOpposite(a, b); }
    forall a, b, c | Order(a, b) < 0 && Order(b, c) < 0 ensures Order(a, c) < 0 { OrderTransitive(a, b, c); }
  }

  /** Numeric keys: the comparison that avl_make_compare generates. */
  function Number(a: int, b: int): int { if a < b then -1 else if a == b then 0 else 1 }

  lemma NumbersOrdered()
    ensures Avl.TotalOrder(Number)
  {
  }

  /** A driver, a command or a thread's private data is found under its name after any number of
      additions, the first one under each name. */
  method AddAll(key: int -> seq<int>, nodes: seq<int>) returns (index: Avl.Index<seq<int>>)
    requires forall i :: 0 <= i < |nodes| ==> nodes[i] != Avl.NIL
    requires forall i, j :: 0 <= i < j < |nodes| ==> nodes[i] != nodes[j]
    ensures fresh(index) && index.Valid() && index.key == key
    ensures index.contents == FirstOf(key, nodes)
  {
    hide Avl.TotalOrder, Avl.Sorted, Avl.Holds, Avl.InOrder, Order;
    StringsOrdered();
    index := new Avl.Index<seq<int>>(key, Order);
    var i := 0;
    while i < |nodes|
      invariant 0 <= i <= |nodes| && fresh(index) && index.Valid() && index.key == key
      invariant index.contents == FirstOf(key, nodes[..i])
      invariant forall j :: i <= j < |nodes| ==> Avl.Blank(index.f, nodes[j]) && nodes[j] !in Avl.InOrder(index.t)
    {
      var res := index.Add(nodes[i]);
      assert nodes[..i + 1][..i] == nodes[..i];
      i := i + 1;
    }
    assert nodes[..|nodes|] == nodes;
  }

  /** For every key the first node that has it. */
  ghost function FirstOf(key: int -> seq<int>, nodes: seq<int>): map<seq<int>, int> {
    if nodes == [] then map[]
    else
      var rest, n := FirstOf(key, nodes[..|nodes| - 1]), nodes[|nodes| - 1];
      if key(n) in rest then rest else rest[key(n) := n]
  }
}
