/** Geometry of the pages and blocks of the subpage allocator (kern/vm/kmalloc.c). */
module Geometry {
  import Digits
  import opened Sequences

  const PAGE_SIZE := 4096
  const NSIZES := 8
  const INVALID_OFFSET := 0xffff

  /** The table `sizes`. */
  function Size(t: nat): (sz: nat)
    requires t < NSIZES
    ensures 16 <= sz <= 2048 && sz % 16 == 0 && PAGE_SIZE % sz == 0
  {
    [16, 32, 64, 128, 256, 512, 1024, 2048][t]
  }

  /** Blocks of type t on a page. */
  function Count(t: nat): (n: nat)
    requires t < NSIZES
    ensures 2 <= n <= 256 && n * Size(t) == PAGE_SIZE
  {
    PAGE_SIZE / Size(t)
  }

  /** The address of block k on a page of type t. */
  function Addr(page: nat, t: nat, k: nat): (a: nat)
    requires t < NSIZES
    ensures a >= page
  {
    Product(k, Size(t));
    page + k * Size(t)
  }

  lemma Product(k: nat, sz: nat)
    ensures k * sz >= 0
  {
  }

  predicate IsPage(page: nat) {
    page > 0 && page % PAGE_SIZE == 0
  }

  lemma MultipleMod(k: nat, d: nat)
    requires d > 0
    ensures (k * d) % d == 0 && (k * d) / d == k
  {
    if (k * d) / d < k {
      Digits.MulLe((k * d) / d + 1, k, d);
      assert false;
    } else if (k * d) / d > k {
      Digits.MulLe(k + 1, (k * d) / d, d);
      assert false;
    }
  }

  /** A block lies on its page, at a multiple of its size. */
  lemma OnPage(page: nat, t: nat, k: nat)
    requires IsPage(page) && t < NSIZES && k < Count(t)
    ensures page <= Addr(page, t, k) && Addr(page, t, k) + Size(t) <= page + PAGE_SIZE
    ensures (Addr(page, t, k) - page) % Size(t) == 0
    ensures (Addr(page, t, k) - page) / Size(t) == k
  {
    Digits.MulLe(k + 1, Count(t), Size(t));
    assert (k + 1) * Size(t) == k * Size(t) + Size(t);
    MultipleMod(k, Size(t));
  }

  /** Addresses on a page have its page number. */
  lemma SamePage(page: nat, a: nat)
    requires IsPage(page) && page <= a < page + PAGE_SIZE
    ensures a / PAGE_SIZE == page / PAGE_SIZE
  {
  }

  /** Different blocks of a page do not overlap. */
  lemma Apart(page: nat, t: nat, k: nat, k': nat)
    requires t < NSIZES && k != k'
    ensures Addr(page, t, k) + Size(t) <= Addr(page, t, k') || Addr(page, t, k') + Size(t) <= Addr(page, t, k)
  {
    if k < k' {
      Digits.MulLe(k + 1, k', Size(t));
      assert (k + 1) * Size(t) == k * Size(t) + Size(t);
    } else {
      Digits.MulLe(k' + 1, k, Size(t));
      assert (k' + 1) * Size(t) == k' * Size(t) + Size(t);
    }
  }

  /** Blocks are aligned to their size, whatever the page. */
  lemma Aligned(page: nat, t: nat, k: nat)
    requires IsPage(page) && t < NSIZES
    ensures Addr(page, t, k) % Size(t) == 0
  {
    PageAligned(page, t);
    var m := page / Size(t);
    assert m * Size(t) + k * Size(t) == (m + k) * Size(t);
    MultipleMod(m + k, Size(t));
  }

  lemma PageAligned(page: nat, t: nat)
    requires IsPage(page) && t < NSIZES
    ensures page % Size(t) == 0 && page == (page / Size(t)) * Size(t)
  {
    hide Size, Count;
    MultipleOfMultiple(page / PAGE_SIZE, Count(t), Size(t));
  }

  lemma MultipleOfMultiple(m: nat, c: nat, d: nat)
    requires d > 0
    ensures (m * (c * d)) % d == 0 && (m * (c * d)) == ((m * (c * d)) / d) * d
  {
    assert m * (c * d) == (m * c) * d;
    MultipleMod(m * c, d);
  }

  /** A multiple of a block size is a multiple of 16. */
  lemma SizeSixteen(p: nat, t: nat)
    requires t < NSIZES && p % Size(t) == 0
    ensures p % 16 == 0
  {
    hide Size;
    SixteenOf(p, Size(t));
  }

  lemma SixteenOf(p: nat, z: nat)
    requires z > 0 && z % 16 == 0 && p % z == 0
    ensures p % 16 == 0
  {
    var m, c := p / z, z / 16;
    assert p == m * z;
    assert z == c * 16;
    MultipleOfMultiple(m, c, 16);
  }

  function Below(n: nat): (r: set<nat>)
    ensures forall x: nat :: x in r <==> x < n
  {
    if n == 0 then {} else Below(n - 1) + {n - 1}
  }

  lemma {:induction false} BelowSize(n: nat)
    ensures |Below(n)| == n
  {
    if n > 0 {
      BelowSize(n - 1);
    }
  }

  function Elements(s: seq<nat>): set<nat> {
    set x | x in s
  }

  lemma {:induction false} DistinctSize(s: seq<nat>)
    requires Distinct(s)
    ensures |Elements(s)| == |s|
  {
    if s != [] {
      var t, x := s[..|s| - 1], s[|s| - 1];
      DistinctSize(t);
      assert s == t + [x];
      assert Elements(s) == Elements(t) + {x};
      assert x !in Elements(t);
    }
  }

  lemma SubsetSize(a: set<nat>, b: set<nat>)
    requires a <= b && |a| == |b|
    ensures a == b
  {
    assert b == a + (b - a);
  }

  /** Count(t) distinct block numbers are all the block numbers. */
  lemma AllBlocks(s: seq<nat>, n: nat)
    requires Distinct(s) && |s| == n && forall i :: 0 <= i < |s| ==> s[i] < n
    ensures forall k: nat :: k < n ==> k in s
  {
    BelowSize(n);
    DistinctSize(s);
    SubsetSize(Elements(s), Below(n));
    forall k: nat | k < n ensures k in s {
      assert k in Below(n);
    }
  }
}
