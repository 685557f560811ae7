/** The memory a vmalloc region works on, addressed in units of 8 bytes.

    On the 32-bit target ALIGN, sizeof(Head_t) and TINYSIZE are all 8 bytes and a full
    body is 16, so every block address and every block size is a whole number of units.
    The header of a block at address b occupies unit b, its data the units
    b+1 .. b+size, and the next header unit b+1+size.  Each kind of word (LINK, LEFT,
    RIGHT, SEG, SELF) is kept in a map of its own. */
module VmMemory {

  /** The null pointer. */
  const NIL: int := 0

  /** Addresses of two local Block_t variables: `link` of bestsearch and `tree` of bestreclaim. */
  const LINK_NODE: int := -1
  const TREE_NODE: int := -2

  /** The SIZE word: a size in units, and the bits BUSY, PFREE and JUNK. */
  datatype Header = Header(size: nat, busy: bool, pfree: bool, junk: bool)

  /** The SIZE word itself, in bytes: the bits occupy the three low-order places. */
  function SizeWord(h: Header): nat {
    8 * h.size + (if h.busy then 1 else 0) + (if h.pfree then 2 else 0) + (if h.junk then 4 else 0)
  }

  /** The source often compares a SIZE word with a number of bytes without clearing its bits; as every
      size is a multiple of 8 bytes, the bits never make a difference.  Nor do two headers share a word. */
  lemma SizeWordOrder(h: Header, k: nat)
    ensures SizeWord(h) < 8 * k <==> h.size < k
    ensures SizeWord(h) / 8 == h.size
    ensures forall h': Header :: SizeWord(h') == SizeWord(h) ==> h' == h
  {
    forall h': Header | SizeWord(h') == SizeWord(h) ensures h' == h {
      assert h'.size == h.size;
      assert h'.busy == h.busy && h'.pfree == h.pfree && h'.junk == h.junk;
    }
  }

  const CLEARED := Header(0, false, false, false)

  function Read(w: map<int, int>, a: int): int {
    if a in w then w[a] else NIL
  }

  datatype Mem = Mem(hdr: map<int, Header>,
                     link: map<int, int>, left: map<int, int>, right: map<int, int>,
                     seg: map<int, int>, self: map<int, int>)
  {
    function Head(b: int): Header {
      if b in hdr then hdr[b] else CLEARED
    }

    function Size(b: int): nat { Head(b).size }

    /** NEXT(b): the header that follows b. */
    function Next(b: int): int { b + 1 + Size(b) }

    function Link(b: int): int { Read(link, b) }
    function Left(b: int): int { Read(left, b) }
    function Right(b: int): int { Read(right, b) }
    function Seg(b: int): int { Read(seg, b) }

    /** LAST(b): the word just before header b, where a free predecessor leaves its address. */
    function Last(b: int): int { Read(self, b - 1) }
  }

  /** Element k of a list of addresses; NIL past either end. */
  function Nth(s: seq<int>, k: int): int {
    if 0 <= k < |s| then s[k] else NIL
  }

  /** Free blocks by size: cls[s] lists the indexed free blocks of s units, list head first. */
  type Classes = map<int, seq<int>>

  function List(cls: Classes, s: int): seq<int> {
    if s in cls then cls[s] else []
  }

  function HeadOf(cls: Classes, s: int): int {
    Nth(List(cls, s), 0)
  }
}
