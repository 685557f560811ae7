/** Intrusive circular lists: every list is a ring of nodes through its head. */
module Lists {
  import opened Seqs

  /** The next and prev fields of all nodes. */
  datatype Links = Links(next: map<int, int>, prev: map<int, int>) {
    function Next(a: int): int { if a in next then next[a] else 0 }
    function Prev(a: int): int { if a in prev then prev[a] else 0 }
  }

  function WithNext(l: Links, a: int, v: int): Links { l.(next := l.next[a := v]) }
  function WithPrev(l: Links, a: int, v: int): Links { l.(prev := l.prev[a := v]) }

  /** From the head through the elements of s and back. */
  ghost predicate Ring(l: Links, h: int, s: seq<int>) {
    var c := [h] + s + [h];
    forall i :: 0 <= i <= |s| ==> l.Next(c[i]) == c[i + 1] && l.Prev(c[i + 1]) == c[i]
  }

  /** Several lists, by their heads: rings without common nodes. */
  ghost predicate Rings(l: Links, ls: map<int, seq<int>>) {
    && (forall h :: h in ls ==> Ring(l, h, ls[h]) && Distinct([h] + ls[h]))
    && (forall h, k, x :: h in ls && k in ls && h != k && x in [h] + ls[h] ==> x !in [k] + ls[k])
  }

  /** x is a node of no list. */
  ghost predicate Loose(ls: map<int, seq<int>>, x: int) {
    forall h :: h in ls ==> x != h && x !in ls[h]
  }

  // ---------- adding ----------

  /** list_add_tail. */
  function TailAdded(l: Links, x: int, h: int): Links {
    var p := l.Prev(h);
    WithNext(WithPrev(WithNext(WithPrev(l, h, x), x, h), x, p), p, x)
  }

  lemma AddedFields(l: Links, x: int, h: int)
    requires x != h && x != l.Prev(h)
    ensures var l', p := TailAdded(l, x, h), l.Prev(h);
            && l'.Next(x) == h && l'.Prev(x) == p && l'.Next(p) == x && l'.Prev(h) == x
            && (forall a :: a != x && a != p ==> l'.Next(a) == l.Next(a))
            && (forall a :: a != x && a != h ==> l'.Prev(a) == l.Prev(a))
  {
  }

  lemma AddRing(l: Links, x: int, h: int, s: seq<int>)
    requires Ring(l, h, s) && Distinct([h] + s) && x != h && x !in s
    ensures Ring(TailAdded(l, x, h), h, s + [x]) && Distinct([h] + (s + [x]))
    ensures l.Prev(h) in [h] + s
  {
    hide TailAdded;
    var c, c' := [h] + s + [h], [h] + (s + [x]) + [h];
    var n := |s|;
    assert c[n + 1] == h && l.Prev(h) == c[n];
    assert c[n] in [h] + s;
    AddedFields(l, x, h);
    var l' := TailAdded(l, x, h);
    assert [h] + (s + [x]) == ([h] + s) + [x];
    forall i | 0 <= i <= n + 1 ensures l'.Next(c'[i]) == c'[i + 1] && l'.Prev(c'[i + 1]) == c'[i] {
      if i < n {
        assert c'[i] == c[i] && c'[i + 1] == c[i + 1] && ([h] + s)[i] == c[i] && ([h] + s)[i + 1] == c[i + 1] &&
               ([h] + s)[n] == c[n];
        assert ([h] + s)[0] == h;
      }
    }
  }

  lemma RingFrame(l: Links, l': Links, h: int, s: seq<int>)
    requires Ring(l, h, s) && forall a :: a in [h] + s ==> l'.Next(a) == l.Next(a) && l'.Prev(a) == l.Prev(a)
    ensures Ring(l', h, s)
  {
  }

  lemma AddRings(l: Links, ls: map<int, seq<int>>, x: int, h: int)
    requires Rings(l, ls) && Loose(ls, x) && h in ls
    ensures Rings(TailAdded(l, x, h), ls[h := ls[h] + [x]])
  {
    hide TailAdded, Ring, Distinct;
    var l', ls' := TailAdded(l, x, h), ls[h := ls[h] + [x]];
    AddRing(l, x, h, ls[h]);
    AddedFields(l, x, h);
    forall k | k in ls && k != h ensures Ring(l', k, ls[k]) {
      RingFrame(l, l', k, ls[k]);
    }
    forall j, k, y | j in ls' && k in ls' && j != k && y in [j] + ls'[j] ensures y !in [k] + ls'[k] {
      AddedNodes(ls, x, h, j, y);
      AddedNodes(ls, x, h, k, y);
    }
  }

  lemma AddedNodes(ls: map<int, seq<int>>, x: int, h: int, k: int, y: int)
    requires h in ls && k in ls
    ensures var ls' := ls[h := ls[h] + [x]]; y in [k] + ls'[k] <==> y in [k] + ls[k] || (k == h && y == x)
  {
  }

  // ---------- deleting ----------

  /** list_del. */
  function Deleted(l: Links, x: int): Links {
    WithNext(WithPrev(l, l.Next(x), l.Prev(x)), l.Prev(x), l.Next(x))
  }

  lemma DelRing(l: Links, h: int, s: seq<int>, k: int)
    requires Ring(l, h, s) && Distinct([h] + s) && 0 <= k < |s|
    ensures Ring(Deleted(l, s[k]), h, Without(s, k)) && Distinct([h] + Without(s, k))
    ensures l.Next(s[k]) in [h] + s && l.Prev(s[k]) in [h] + s
  {
    var c, c' := [h] + s + [h], [h] + Without(s, k) + [h];
    var x, l' := s[k], Deleted(l, s[k]);
    var d := [h] + s;
    assert c[k + 1] == x && l.Next(x) == c[k + 2] && l.Prev(x) == c[k];
    assert c[k] == d[k] && c[k] in d;
    assert c[k + 2] == if k + 2 < |d| then d[k + 2] else d[0];
    assert c[k + 2] in d;
    forall i | 0 <= i < |s| ensures l'.Next(c'[i]) == c'[i + 1] && l'.Prev(c'[i + 1]) == c'[i] {
      var j := if i <= k then i else i + 1;
      assert c'[i] == c[j] == d[j];
      assert c'[i + 1] == c[if i < k then i + 1 else i + 2];
      if i < k {
        assert d[j] != d[k];
        assert c[i + 1] == d[i + 1];
      } else if i > k {
        assert d[j] != d[k];
        assert c[j + 1] == if j + 1 < |d| then d[j + 1] else d[0];
      }
    }
    WithoutDistinct(h, s, k);
  }

  lemma WithoutDistinct(h: int, s: seq<int>, k: int)
    requires Distinct([h] + s) && 0 <= k < |s|
    ensures Distinct([h] + Without(s, k))
    ensures forall y :: y in [h] + Without(s, k) <==> y in [h] + s && y != s[k]
  {
    var d, d' := [h] + s, [h] + Without(s, k);
    assert d[k + 1] == s[k];
    forall i | 0 <= i < |d'| ensures d'[i] == d[if i <= k then i else i + 1] { }
    forall y | y in d && y != s[k] ensures y in d' {
      var i :| 0 <= i < |d| && d[i] == y;
      assert d'[if i <= k then i else i - 1] == y;
    }
  }

  lemma DelRings(l: Links, ls: map<int, seq<int>>, h: int, k: int)
    requires Rings(l, ls) && h in ls && 0 <= k < |ls[h]|
    ensures var ls' := ls[h := Without(ls[h], k)];
            Rings(Deleted(l, ls[h][k]), ls') && Loose(ls', ls[h][k])
  {
    hide Ring, Distinct, Without;
    var x := ls[h][k];
    var l', ls' := Deleted(l, x), ls[h := Without(ls[h], k)];
    DelRing(l, h, ls[h], k);
    WithoutDistinct(h, ls[h], k);
    assert x in [h] + ls[h];
    forall j | j in ls && j != h ensures Ring(l', j, ls[j]) {
      forall a | a in [j] + ls[j] ensures l'.Next(a) == l.Next(a) && l'.Prev(a) == l.Prev(a) {
        assert a !in [h] + ls[h];
      }
      RingFrame(l, l', j, ls[j]);
    }
    HeadFirst(h, ls[h]);
    forall j | j in ls' ensures x != j && x !in ls'[j] {
      if j == h {
        assert forall y :: y in ls'[h] ==> y in [h] + ls'[h];
      } else {
        assert x !in [j] + ls[j];
      }
    }
  }

  lemma HeadFirst(h: int, s: seq<int>)
    requires Distinct([h] + s)
    ensures h !in s
  {
    var d := [h] + s;
    forall i | 0 <= i < |s| ensures s[i] != h { assert d[i + 1] == s[i] && d[0] == h; }
  }

  lemma RingFirst(l: Links, h: int, s: seq<int>)
    requires Ring(l, h, s)
    ensures l.Next(h) == if s == [] then h else s[0]
  {
    var c := [h] + s + [h];
    assert c[0] == h && l.Next(c[0]) == c[1];
  }

  lemma RingNext(l: Links, h: int, s: seq<int>, k: int)
    requires Ring(l, h, s) && 0 <= k < |s|
    ensures l.Next(s[k]) == if k + 1 < |s| then s[k + 1] else h
  {
    var c := [h] + s + [h];
    assert c[k + 1] == s[k] && l.Next(c[k + 1]) == c[k + 2];
  }

  lemma Single(h: int)
    ensures Distinct([h] + [])
  {
  }

  /** The empty list. */
  lemma NewRing(l: Links, ls: map<int, seq<int>>, h: int)
    requires Rings(l, ls) && Loose(ls, h) && h !in ls
    ensures Rings(WithPrev(WithNext(l, h, h), h, h), ls[h := []])
  {
    hide Distinct;
    var l', ls' := WithPrev(WithNext(l, h, h), h, h), ls[h := []];
    assert Ring(l', h, []) by { assert [h] + [] + [h] == [h, h]; }
    Single(h);
    forall k | k in ls ensures Ring(l', k, ls[k]) { RingFrame(l, l', k, ls[k]); }
  }
}
