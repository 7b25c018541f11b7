/**
 * The part of physical memory that a memory mapped device maps
 * (src/device/hwio_device_mmap.cpp): whole pages that cover the device.
 */
module MappedWindow {
  import opened Bytes

  const WORD_BITS: nat := 32

  // ---- bitwise and with a page mask ----

  function BitAnd(a: nat, b: nat): nat
    decreases a + b
  {
    if a == 0 || b == 0 then 0
    else 2 * BitAnd(a / 2, b / 2) + if a % 2 == 1 && b % 2 == 1 then 1 else 0
  }

  /** The operator ~ on 32 bits. */
  function Complement(v: nat): nat
    requires v < Pow2(WORD_BITS)
  {
    Pow2(WORD_BITS) - 1 - v
  }

  lemma {:induction false} AndOnes(x: nat, w: nat)
    requires x < Pow2(w)
    ensures BitAnd(x, Pow2(w) - 1) == x
  {
    if w > 0 && x > 0 {
      AndOnes(x / 2, w - 1);
      assert (Pow2(w) - 1) / 2 == Pow2(w - 1) - 1 && (Pow2(w) - 1) % 2 == 1;
    }
  }

  lemma ModHalves(x: nat, p: nat)
    requires p > 0
    ensures x % (2 * p) == 2 * (x / 2 % p) + x % 2
  {
    var h := x / 2;
    var q, r := h / p, h % p;
    assert x == 2 * p * q + (2 * r + x % 2);
    ModUnique(x, 2 * p, q, 2 * r + x % 2);
  }

  lemma ModUnique(x: nat, m: nat, q: nat, r: nat)
    requires m > 0 && x == m * q + r && r < m
    ensures x % m == r
  {
    var k: int := x / m - q;
    assert x == m * (x / m) + x % m;
    assert m * k == r as int - x % m;
    Multiples(m, k);
  }

  lemma {:induction false} Multiples(m: int, k: int)
    requires m > 0
    ensures k > 0 ==> m * k >= m
    ensures k < 0 ==> m * k <= -m
    decreases if k < 0 then -k else k
  {
    if k > 1 {
      Multiples(m, k - 1);
    } else if k < -1 {
      Multiples(m, k + 1);
    }
  }

  /** Masking with the complement of 2^k - 1 rounds down to a multiple of 2^k. */
  lemma {:induction false} AndMask(x: nat, k: nat, w: nat)
    requires x < Pow2(w) && k <= w
    ensures Pow2(k) <= Pow2(w)
    ensures BitAnd(x, Pow2(w) - Pow2(k)) == x - x % Pow2(k)
    decreases k
  {
    if k == 0 {
      AndOnes(x, w);
    } else {
      AndMask(x / 2, k - 1, w - 1);
      ModHalves(x, Pow2(k - 1));
      var mask := Pow2(w - 1) - Pow2(k - 1);
      assert Pow2(w) - Pow2(k) == 2 * mask;
      if x != 0 && mask != 0 {
        assert (2 * mask) / 2 == mask && (2 * mask) % 2 == 0;
      } else if mask == 0 {
        assert BitAnd(x / 2, 0) == 0;
      }
    }
  }

  // ---- the window ----

  /** What mmap is given, and where the device starts in it. */
  datatype Window = Window(pageAddr: nat, pageOffset: int, length: nat)

  /** Page sizes are powers of two. */
  ghost predicate PageSize(page: nat) {
    exists k: nat :: k < WORD_BITS && page == Pow2(k)
  }

  lemma {:induction false} PowersGrow(k: nat, w: nat)
    requires k <= w
    ensures Pow2(k) <= Pow2(w)
    decreases w
  {
    if k < w {
      PowersGrow(k, w - 1);
    }
  }

  lemma PageFits(page: nat)
    requires PageSize(page)
    ensures 0 < page <= Pow2(WORD_BITS)
  {
    var k: nat :| k < WORD_BITS && page == Pow2(k);
    PowersGrow(k, WORD_BITS);
  }

  /** The mapped length: at least a page, and a page more unless pages have one byte. */
  function MappedLength(size: nat, page: nat): nat
    requires page > 0
  {
    var s := if size < page then page else size;
    if s > s / page then s + page else s
  }

  function WindowOf(base: nat, size: nat, page: nat): Window
    requires base < Pow2(WORD_BITS) && 0 < page <= Pow2(WORD_BITS)
  {
    var pageAddr := BitAnd(base, Complement(page - 1));
    Window(pageAddr, base - pageAddr, MappedLength(size, page))
  }

  lemma DivShrinks(s: nat, page: nat)
    requires s > 0 && page > 0
    ensures s > s / page <==> page > 1
  {
    var q := s / page;
    assert s == page * q + s % page;
    if page > 1 {
      assert page * q == 2 * q + (page - 2) * q;
      assert (page - 2) * q >= 0;
    }
  }

  predicate Inside(w: Window, offset: int) {
    w.pageOffset + offset < w.length
  }

  /** The window starts at a page, and the device starts inside that first page. */
  lemma WindowIsAligned(base: nat, size: nat, page: nat)
    requires base < Pow2(WORD_BITS) && PageSize(page)
    ensures 0 < page <= Pow2(WORD_BITS)
    ensures var w := WindowOf(base, size, page);
      w.pageAddr % page == 0 && w.pageAddr + w.pageOffset == base && w.pageOffset == base % page
  {
    hide BitAnd, MappedLength, Pow2;
    PageFits(page);
    var k: nat :| k < WORD_BITS && page == Pow2(k);
    AndMask(base, k, WORD_BITS);
    Multiple(base, page);
  }

  lemma LengthCovers(size: nat, page: nat)
    requires page > 0
    ensures MappedLength(size, page) >= size + page - 1 && MappedLength(size, page) <= size + 2 * page
  {
    DivShrinks(if size < page then page else size, page);
  }

  /** One page more than the device, or than a page if the device is smaller; no more with pages of one byte. */
  lemma LengthIs(size: nat, page: nat)
    requires page > 0
    ensures page > 1 ==> MappedLength(size, page) == page + if size < page then page else size
    ensures page == 1 ==> MappedLength(size, page) == if size < 1 then 1 else size
  {
    DivShrinks(if size < page then page else size, page);
  }

  /**
   * Every byte of the device is inside the window, and the window is at most
   * two pages longer than the device.
   */
  lemma WindowCovers(base: nat, size: nat, page: nat)
    requires base < Pow2(WORD_BITS) && PageSize(page)
    ensures 0 < page <= Pow2(WORD_BITS)
    ensures var w := WindowOf(base, size, page);
      && w.pageAddr % page == 0 && w.pageAddr + w.pageOffset == base && 0 <= w.pageOffset < page
      && (forall offset :: 0 <= offset < size ==> Inside(w, offset))
      && w.length <= size + 2 * page
  {
    hide BitAnd, Pow2, MappedLength;
    WindowIsAligned(base, size, page);
    LengthCovers(size, page);
  }

  lemma Multiple(x: nat, m: nat)
    requires m > 0
    ensures (x - x % m) % m == 0
  {
    assert x - x % m == m * (x / m);
    ModUnique(x - x % m, m, x / m, 0);
  }

  /** hwio_device_mmap, without its file and mapping. */
  class HwioDeviceMmap {
    const onBusBaseAddr: nat
    const onBusSize: nat
    var addrSpaceSize: nat
    var pageAddr: nat
    var pageOffset: int

    constructor (base: nat, size: nat, ghost k: nat, page: nat)
      requires base < Pow2(WORD_BITS) && size < Pow2(WORD_BITS) && k < WORD_BITS && page == Pow2(k)
      ensures onBusBaseAddr == base && onBusSize == size
      ensures 0 < page <= Pow2(WORD_BITS) && Window(pageAddr, pageOffset, addrSpaceSize) == WindowOf(base, size, page)
    {
      hide BitAnd, Pow2;
      PageFits(page);
      onBusBaseAddr, onBusSize := base, size;
      var s := size;
      if s < page {
        s := page;
      }
      if s > s / page {
        s := s + page;
      }
      addrSpaceSize := s;
      var aligned := BitAnd(base, Complement(page - 1));
      pageAddr, pageOffset := aligned, base - aligned;
    }
  }
}
