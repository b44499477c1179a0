/**
 The page bitmaps of the block device (framework/infiniswap_bd/is_mq.c): one bit per 4 KB page of a
 1 GB chunk, packed into 32-bit words that are updated in place.  Proved to behave as a set of pages,
 which is how the paging model sees them.
 */
module Bitmap {

  const WORDS := 8192                // BITMAP_INT_SIZE
  const BITS := 262144
  const PAGE_SIZE := 4096

  function Mask(k: nat): bv32
    requires k < 32
  {
    (1 as bv32) << k
  }

  lemma MasksMeet(j: nat, k: nat)
    requires j < 32 && k < 32
    ensures Mask(j) & Mask(k) != 0 <==> j == k
  {
  }

  predicate TestBit(words: seq<bv32>, i: int)
    requires |words| == WORDS && 0 <= i < BITS
  {
    words[i / 32] & Mask(i % 32) != 0
  }

  /** The pages whose bit is set. */
  ghost function Pages(words: seq<bv32>): set<int>
    requires |words| == WORDS
  {
    set i | 0 <= i < BITS && TestBit(words, i)
  }

  function SetBit(words: seq<bv32>, i: int): (r: seq<bv32>)
    requires |words| == WORDS && 0 <= i < BITS
    ensures |r| == WORDS
  {
    words[i / 32 := words[i / 32] | Mask(i % 32)]
  }

  function ClearBit(words: seq<bv32>, i: int): (r: seq<bv32>)
    requires |words| == WORDS && 0 <= i < BITS
    ensures |r| == WORDS
  {
    words[i / 32 := words[i / 32] & !Mask(i % 32)]
  }

  lemma SetBitTest(words: seq<bv32>, i: int, j: int)
    requires |words| == WORDS && 0 <= i < BITS && 0 <= j < BITS
    ensures TestBit(SetBit(words, i), j) <==> j == i || TestBit(words, j)
  {
    MasksMeet(i % 32, j % 32);
  }

  lemma ClearBitTest(words: seq<bv32>, i: int, j: int)
    requires |words| == WORDS && 0 <= i < BITS && 0 <= j < BITS
    ensures TestBit(ClearBit(words, i), j) <==> j != i && TestBit(words, j)
  {
    MasksMeet(i % 32, j % 32);
  }

  lemma {:induction false} SetBitPages(words: seq<bv32>, i: int)
    requires |words| == WORDS && 0 <= i < BITS
    ensures Pages(SetBit(words, i)) == Pages(words) + {i}
  {
    hide TestBit, SetBit;
    forall j | 0 <= j < BITS
      ensures TestBit(SetBit(words, i), j) <==> j == i || TestBit(words, j)
    {
      SetBitTest(words, i, j);
    }
  }

  lemma {:induction false} ClearBitPages(words: seq<bv32>, i: int)
    requires |words| == WORDS && 0 <= i < BITS
    ensures Pages(ClearBit(words, i)) == Pages(words) - {i}
  {
    hide TestBit, ClearBit;
    forall j | 0 <= j < BITS
      ensures TestBit(ClearBit(words, i), j) <==> j != i && TestBit(words, j)
    {
      ClearBitTest(words, i, j);
    }
  }

  ghost function Run(start: int, n: int): set<int> {
    set i: int | start <= i < start + n && Index(i)
  }

  predicate Index(i: int) { true }

  /** IS_bitmap_set. */
  method Set(bitmap: array<bv32>, i: int)
    requires bitmap.Length == WORDS && 0 <= i < BITS
    modifies bitmap
    ensures Pages(bitmap[..]) == old(Pages(bitmap[..])) + {i}
  {
    hide TestBit;
    SetBitPages(bitmap[..], i);
    bitmap[i / 32] := bitmap[i / 32] | Mask(i % 32);
  }

  /** IS_bitmap_clear. */
  method Clear(bitmap: array<bv32>, i: int)
    requires bitmap.Length == WORDS && 0 <= i < BITS
    modifies bitmap
    ensures Pages(bitmap[..]) == old(Pages(bitmap[..])) - {i}
  {
    hide TestBit;
    ClearBitPages(bitmap[..], i);
    bitmap[i / 32] := bitmap[i / 32] & !Mask(i % 32);
  }

  method Test(bitmap: array<bv32>, i: int) returns (b: bool)
    requires bitmap.Length == WORDS && 0 <= i < BITS
    ensures b <==> i in Pages(bitmap[..])
  {
    b := bitmap[i / 32] & Mask(i % 32) != 0;
  }

  /** IS_bitmap_group_set: mark the pages of a byte range, which is a whole number of pages. */
  method GroupSet(bitmap: array<bv32>, offset: nat, len: nat)
    requires bitmap.Length == WORDS && offset + len <= BITS * PAGE_SIZE
    modifies bitmap
    ensures Pages(bitmap[..]) == old(Pages(bitmap[..])) + Run(offset / PAGE_SIZE, len / PAGE_SIZE)
  {
    hide TestBit, SetBit, ClearBit;
    var startPage, lenPage := offset / PAGE_SIZE, len / PAGE_SIZE;
    var i := 0;
    while i < lenPage
      invariant 0 <= i <= lenPage
      invariant Pages(bitmap[..]) == old(Pages(bitmap[..])) + Run(startPage, i)
    {
      assert Index(startPage + i);
      assert Run(startPage, i + 1) == Run(startPage, i) + {startPage + i};
      Set(bitmap, startPage + i);
      i := i + 1;
    }
  }

  /** IS_bitmap_group_clear. */
  method GroupClear(bitmap: array<bv32>, offset: nat, len: nat)
    requires bitmap.Length == WORDS && offset + len <= BITS * PAGE_SIZE
    modifies bitmap
    ensures Pages(bitmap[..]) == old(Pages(bitmap[..])) - Run(offset / PAGE_SIZE, len / PAGE_SIZE)
  {
    hide TestBit, SetBit, ClearBit;
    var startPage, lenPage := offset / PAGE_SIZE, len / PAGE_SIZE;
    var i := 0;
    while i < lenPage
      invariant 0 <= i <= lenPage
      invariant Pages(bitmap[..]) == old(Pages(bitmap[..])) - Run(startPage, i)
    {
      assert Index(startPage + i);
      assert Run(startPage, i + 1) == Run(startPage, i) + {startPage + i};
      Clear(bitmap, startPage + i);
      i := i + 1;
    }
  }
}
