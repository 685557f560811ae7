/** The ring buffer of characters. */
module CharQueue {

  const CHAR_QUEUE_SIZE := 1024

  class Queue {
    const buffer: array<int>
    var first: nat
    var last: nat

    ghost predicate Valid()
      reads this
    {
      buffer.Length == CHAR_QUEUE_SIZE && first < CHAR_QUEUE_SIZE && last < CHAR_QUEUE_SIZE
    }

    /** char_queue_size_nolock. */
    function Size(): (n: int)
      requires Valid()
      reads this
      ensures 0 <= n < CHAR_QUEUE_SIZE && (first + n) % CHAR_QUEUE_SIZE == last
    {
      var s := last - first;
      if s < 0 then s + CHAR_QUEUE_SIZE else s
    }

    /** The characters in the queue, oldest first. */
    ghost function Contents(): seq<int>
      requires Valid()
      reads this, buffer
    {
      Stretch(buffer[..], first, Size())
    }

    constructor ()
      ensures Valid() && Contents() == [] && fresh(buffer)
    {
      buffer := new int[CHAR_QUEUE_SIZE](_ => 0);
      first, last := 0, 0;
    }

    /** char_queue_empty_nolock. */
    method Empty() returns (empty: bool)
      requires Valid()
      ensures empty <==> Contents() == []
    {
      StretchLength(buffer[..], first, Size());
      empty := first == last;
    }

    /** char_enqueue_nolock.  A full queue stops the kernel, with nothing changed. */
    method Enqueue(ch: int) returns (panic: bool)
      requires Valid()
      modifies `last, buffer
      ensures Valid()
      ensures panic <==> |old(Contents())| == CHAR_QUEUE_SIZE - 1
      ensures Contents() == if panic then old(Contents()) else old(Contents()) + [ch]
    {
      StretchLength(buffer[..], first, Size());
      var newLast := (last + 1) % CHAR_QUEUE_SIZE;
      if newLast == first {
        return true;
      }
      panic := false;
      ghost var b, n := buffer[..], Size();
      StretchMore(b, first, n, ch);
      buffer[last] := ch;
      last := newLast;
      assert buffer[..] == b[(first + n) % CHAR_QUEUE_SIZE := ch];
    }

    /** char_dequeue_nolock: the oldest character, or 0 from an empty queue. */
    method Dequeue() returns (ch: int)
      requires Valid()
      modifies `first
      ensures Valid()
      ensures if old(Contents()) == [] then ch == 0 && Contents() == []
              else ch == old(Contents())[0] && Contents() == old(Contents())[1..]
    {
      StretchLength(buffer[..], first, Size());
      if first == last {
        return 0;
      }
      StretchRest(buffer[..], first, Size());
      ch := buffer[first];
      first := (first + 1) % CHAR_QUEUE_SIZE;
    }
  }

  /** n cells from position i on, around the end of the buffer. */
  ghost function Stretch(b: seq<int>, i: nat, n: nat): seq<int>
    requires |b| == CHAR_QUEUE_SIZE
  {
    if n == 0 then [] else Stretch(b, i, n - 1) + [b[(i + n - 1) % CHAR_QUEUE_SIZE]]
  }

  lemma {:induction false} StretchLength(b: seq<int>, i: nat, n: nat)
    requires |b| == CHAR_QUEUE_SIZE
    ensures |Stretch(b, i, n)| == n
  {
    if n > 0 { StretchLength(b, i, n - 1); }
  }

  lemma {:induction false} StretchFrame(b: seq<int>, b': seq<int>, i: nat, n: nat, at: nat)
    requires |b| == CHAR_QUEUE_SIZE && i < CHAR_QUEUE_SIZE && n <= at < CHAR_QUEUE_SIZE
    requires |b'| == |b| && forall k :: 0 <= k < |b| && k != (i + at) % CHAR_QUEUE_SIZE ==> b'[k] == b[k]
    ensures Stretch(b', i, n) == Stretch(b, i, n)
  {
    if n > 0 {
      StretchFrame(b, b', i, n - 1, at);
      assert (i + n - 1) % CHAR_QUEUE_SIZE != (i + at) % CHAR_QUEUE_SIZE;
    }
  }

  lemma StretchMore(b: seq<int>, i: nat, n: nat, ch: int)
    requires |b| == CHAR_QUEUE_SIZE && i < CHAR_QUEUE_SIZE && n < CHAR_QUEUE_SIZE
    ensures Stretch(b[(i + n) % CHAR_QUEUE_SIZE := ch], i, n + 1) == Stretch(b, i, n) + [ch]
  {
    StretchFrame(b, b[(i + n) % CHAR_QUEUE_SIZE := ch], i, n, n);
  }

  lemma {:induction false} StretchRest(b: seq<int>, i: nat, n: nat)
    requires |b| == CHAR_QUEUE_SIZE && i < CHAR_QUEUE_SIZE && 0 < n < CHAR_QUEUE_SIZE
    ensures var s := Stretch(b, i, n);
            s != [] && s[0] == b[i] && s[1..] == Stretch(b, (i + 1) % CHAR_QUEUE_SIZE, n - 1)
  {
    if n == 1 {
      assert Stretch(b, i, 0) == [];
    } else {
      StretchRest(b, i, n - 1);
      Around(i, n);
      var s, x := Stretch(b, i, n - 1), b[(i + n - 1) % CHAR_QUEUE_SIZE];
      TailOfMore(s, x);
      assert Stretch(b, i, n) == s + [x];
    }
  }

  lemma Around(i: nat, n: nat)
    requires i < CHAR_QUEUE_SIZE && 2 <= n < CHAR_QUEUE_SIZE
    ensures ((i + 1) % CHAR_QUEUE_SIZE + (n - 1) - 1) % CHAR_QUEUE_SIZE == (i + n - 1) % CHAR_QUEUE_SIZE
  {
  }

  lemma TailOfMore(s: seq<int>, x: int)
    requires s != []
    ensures (s + [x])[1..] == s[1..] + [x]
  {
  }
}
