/**
 Addresses and page numbers. The shared region is the PAGES pages below TOP_ADDR; a fault
 address is masked down to its page, tested against the region and turned into a number.
 */
module Addresses {
  import opened Basics

  const TOP_ADDR: nat := 0x4000_0000
  const PAGE_NUMBER: nat := 100

  function Pow2(k: nat): (p: nat)
    ensures p > 0
  {
    if k == 0 then 1 else 2 * Pow2(k - 1)
  }

  // ---------------------------------------------------------------- the mask

  /** The bitwise and of two natural numbers. */
  function BitAnd(a: nat, b: nat): nat {
    if a == 0 || b == 0 then 0 else 2 * BitAnd(a / 2, b / 2) + (a % 2) * (b % 2)
  }

  /** ~(s - 1) in an unsigned word of w bits, for the page size s = 2^k. */
  function Mask(w: nat, k: nat): nat
    requires k <= w
  {
    Pow2Grows(k, w);
    Pow2(w) - Pow2(k)
  }

  lemma {:induction false} Pow2Grows(k: nat, w: nat)
    requires k <= w
    ensures Pow2(k) <= Pow2(w)
    decreases w
  {
    if k == w {
    } else {
      Pow2Grows(k, w - 1);
    }
  }

  lemma {:induction false} Pow2Divides(k: nat, w: nat)
    requires k <= w
    ensures Pow2(w) % Pow2(k) == 0
    decreases w
  {
    if k == w {
      MultipleMod(Pow2(k), 1);
    } else {
      Pow2Divides(k, w - 1);
      var s, q := Pow2(k), Pow2(w - 1) / Pow2(k);
      assert Pow2(w - 1) == s * q;
      assert Pow2(w) == s * (2 * q);
      MultipleMod(s, 2 * q);
    }
  }

  lemma MultipleMod(s: nat, q: nat)
    requires s > 0
    ensures (s * q) % s == 0 && (s * q) / s == q
  {
    RemainderIs(s * q, s, q, 0);
  }

  lemma {:induction false} AndWithAllOnes(a: nat, w: nat)
    requires a < Pow2(w)
    ensures BitAnd(a, Pow2(w) - 1) == a
  {
    if w == 0 {
    } else {
      AndWithAllOnes(a / 2, w - 1);
      assert (Pow2(w) - 1) / 2 == Pow2(w - 1) - 1;
      assert (Pow2(w) - 1) % 2 == 1;
    }
  }

  /** Halving commutes with cutting off the low bits. */
  lemma HalvedRemainder(a: nat, s: nat)
    requires s > 0
    ensures a % (2 * s) == 2 * (a / 2 % s) + a % 2
  {
    var h := a / 2;
    var q, r := h / s, h % s;
    assert h == s * q + r;
    assert a == (2 * s) * q + (2 * r + a % 2);
    RemainderIs(a, 2 * s, q, 2 * r + a % 2);
  }

  lemma Monotone(d: nat, x: int, y: int)
    ensures x <= y ==> d * x <= d * y
  {
    if x <= y {
      assert d * y == d * x + d * (y - x);
    }
  }

  lemma RemainderIs(a: nat, d: nat, q: int, r: nat)
    requires d > 0 && a == d * q + r && r < d
    ensures a % d == r && a / d == q
  {
    var q', r' := a / d, a % d;
    assert d * (q - q') == r' - r;
    Monotone(d, 1, q - q');
    Monotone(d, q - q', -1);
  }

  lemma AndHalves(a: nat, b: nat)
    ensures BitAnd(a, 2 * b) == 2 * BitAnd(a / 2, b)
  {
    assert (2 * b) / 2 == b && (2 * b) % 2 == 0;
  }

  lemma MaskHalves(w: nat, k: nat)
    requires 0 < k <= w
    ensures Mask(w, k) == 2 * Mask(w - 1, k - 1)
  {
  }

  /** Masking with ~(s - 1) rounds down to a multiple of the page size. */
  lemma {:induction false} MaskRoundsDown(a: nat, w: nat, k: nat)
    requires k <= w && a < Pow2(w)
    ensures BitAnd(a, Mask(w, k)) == a - a % Pow2(k)
    decreases w
  {
    if k == 0 {
      AndWithAllOnes(a, w);
    } else {
      var s := Pow2(k - 1);
      MaskRoundsDown(a / 2, w - 1, k - 1);
      MaskHalves(w, k);
      AndHalves(a, Mask(w - 1, k - 1));
      HalvedRemainder(a, s);
      assert BitAnd(a, Mask(w, k)) == 2 * (a / 2 - a / 2 % s);
    }
  }

  // ---------------------------------------------------------------- the region

  /** A page size is a power of two, and the region fits below TOP_ADDR. */
  predicate ValidPageSize(k: nat) {
    PAGE_NUMBER * Pow2(k) <= TOP_ADDR
  }

  function Base(k: nat): nat
    requires ValidPageSize(k)
  {
    TOP_ADDR - PAGE_NUMBER * Pow2(k)
  }

  /** num2address; `None` is the NULL it returns from TOP_ADDR on. */
  function NumToAddress(k: nat, page: int): Option<int>
    requires ValidPageSize(k)
  {
    var pointer := Base(k) + page * Pow2(k);
    if pointer >= TOP_ADDR then None else Some(pointer)
  }

  /** C division truncates towards zero. */
  function TruncDiv(a: int, d: nat): int
    requires d > 0
  {
    if a >= 0 then a / d else -(-a / d)
  }

  function AddressToNum(k: nat, address: int): int
    requires ValidPageSize(k)
  {
    TruncDiv(address - Base(k), Pow2(k))
  }

  predicate InRegion(k: nat, address: nat)
    requires ValidPageSize(k)
  {
    Base(k) <= address < TOP_ADDR
  }

  /** The region is the 100 pages below 0x40000000, for every page size for which they fit. */
  lemma RegionIs(k: nat, a: nat)
    requires 100 * Pow2(k) <= 0x4000_0000
    ensures ValidPageSize(k)
    ensures InRegion(k, a) <==> 0x4000_0000 - 100 * Pow2(k) <= a < 0x4000_0000
  {
  }

  /** Page 0 starts where the region does, page 99 one page below its end, and every page one page
      behind the one before it; page 100 has no address. */
  lemma PagesStartAt(k: nat, page: nat)
    requires 100 * Pow2(k) <= 0x4000_0000
    ensures ValidPageSize(k)
    ensures NumToAddress(k, 0) == Some(0x4000_0000 - 100 * Pow2(k))
    ensures NumToAddress(k, 99) == Some(0x4000_0000 - Pow2(k))
    ensures page < 99 ==>
              && NumToAddress(k, page).Some?
              && NumToAddress(k, page + 1) == Some(NumToAddress(k, page).value + Pow2(k))
    ensures page >= 100 <==> NumToAddress(k, page) == None
  {
    var s := Pow2(k);
    Monotone(s, page + 1, 100);
    Monotone(s, 100, page);
    assert s * (page + 1) == s * page + s;
    assert page * s == s * page && (page + 1) * s == s * (page + 1);
  }

  lemma RegionIsAligned(k: nat)
    requires ValidPageSize(k)
    ensures TOP_ADDR % Pow2(k) == 0
  {
    assert Pow2(30) == TOP_ADDR by {
      assert Pow2(10) == 1024;
      assert Pow2(20) == 1024 * Pow2(10);
      assert Pow2(30) == 1024 * Pow2(20);
    }
    if k > 30 {
      Pow2Grows(30, k);
    }
    Pow2Divides(k, 30);
  }

  /** In pages: the region ends at some whole page number, and begins 100 pages before. */
  lemma RegionInPages(k: nat) returns (end: nat)
    requires ValidPageSize(k)
    ensures end >= PAGE_NUMBER
    ensures TOP_ADDR == Pow2(k) * end && Base(k) == Pow2(k) * (end - PAGE_NUMBER)
  {
    var s := Pow2(k);
    RegionIsAligned(k);
    end := TOP_ADDR / s;
    assert s * (end - PAGE_NUMBER) == s * end - s * PAGE_NUMBER;
    Monotone(s, end + 1, PAGE_NUMBER);
  }

  /** An address lies in a range of whole pages exactly when the start of its page does. */
  lemma RoundingKeepsBounds(a: nat, s: nat, q: int)
    requires s > 0
    ensures s * q <= a - a % s <==> s * q <= a
    ensures s * q <= a <==> q <= a / s
  {
    var m := a / s;
    assert a == s * m + a % s && s * (m + 1) == s * m + s;
    Monotone(s, q, m);
    Monotone(s, m + 1, q);
  }

  /** What the signal handler computes from a fault address in an address space of 2^w bytes. */
  function PageOfFault(w: nat, k: nat, address: nat): Option<int>
    requires k <= w && ValidPageSize(k)
  {
    var start := BitAnd(address, Mask(w, k));
    if InRegion(k, start) then Some(AddressToNum(k, start)) else None
  }

  /** The number of the page that starts at s * m, for a region of pages from `first` on. */
  lemma PageOfStart(k: nat, m: nat, first: nat)
    requires ValidPageSize(k) && first <= m && Base(k) == Pow2(k) * first
    ensures AddressToNum(k, Pow2(k) * m) == m - first
  {
    assert Pow2(k) * m - Base(k) == Pow2(k) * (m - first);
    MultipleMod(Pow2(k), m - first);
  }

  /** The bounds of that page. */
  lemma PageBounds(s: nat, m: nat, first: nat)
    ensures s * first + (m - first) * s == s * m
    ensures s * first + (m - first + 1) * s == s * m + s
  {
    assert (m - first) * s == s * m - s * first;
    assert (m - first + 1) * s == (m - first) * s + s;
  }

  /** Testing the rounded address accepts the same addresses as testing the raw one. */
  lemma RoundedTestIsRawTest(w: nat, k: nat, address: nat)
    requires k <= w && ValidPageSize(k) && address < Pow2(w)
    ensures InRegion(k, BitAnd(address, Mask(w, k))) <==> InRegion(k, address)
  {
    var end := RegionInPages(k);
    MaskRoundsDown(address, w, k);
    RoundingKeepsBounds(address, Pow2(k), end - PAGE_NUMBER);
    RoundingKeepsBounds(address, Pow2(k), end);
  }

  /** The page frame of an address of the region lies between its first and its last. */
  lemma FrameInRegion(k: nat, address: nat) returns (first: nat)
    requires ValidPageSize(k) && InRegion(k, address)
    ensures Base(k) == Pow2(k) * first && first <= address / Pow2(k) < first + PAGE_NUMBER
  {
    var end := RegionInPages(k);
    first := end - PAGE_NUMBER;
    RoundingKeepsBounds(address, Pow2(k), first);
    RoundingKeepsBounds(address, Pow2(k), end);
  }

  lemma FrameBounds(address: nat, s: nat)
    requires s > 0
    ensures s * (address / s) == address - address % s
    ensures s * (address / s) <= address < s * (address / s) + s
  {
  }

  /** The page found for an address of the region is numbered 0 to 99 and contains it. */
  lemma PageContainsAddress(k: nat, address: nat, start: nat)
    requires ValidPageSize(k) && InRegion(k, address) && start == address - address % Pow2(k)
    ensures var page := AddressToNum(k, start);
            && 0 <= page < PAGE_NUMBER
            && Base(k) + page * Pow2(k) <= address < Base(k) + (page + 1) * Pow2(k)
  {
    var s, m := Pow2(k), address / Pow2(k);
    var first := FrameInRegion(k, address);
    FrameBounds(address, s);
    PageOfStart(k, m, first);
    PageBounds(s, m, first);
  }

  /** The handler accepts exactly the addresses of the 100 pages below 0x40000000, as the archived
      test on the raw address does, and finds the one page, numbered 0 to 99, that contains the
      address: counted in whole pages, so many from the start of the region. */
  lemma FaultDecoding(w: nat, k: nat, address: nat)
    requires k <= w && 100 * Pow2(k) <= 0x4000_0000 && address < Pow2(w)
    ensures ValidPageSize(k)
    ensures PageOfFault(w, k, address).Some? <==> 0x4000_0000 - 100 * Pow2(k) <= address < 0x4000_0000
    ensures PageOfFault(w, k, address).Some? ==>
              var page, start := PageOfFault(w, k, address).value, 0x4000_0000 - 100 * Pow2(k);
              && 0 <= page < 100
              && start + page * Pow2(k) <= address < start + (page + 1) * Pow2(k)
              && page == (address - start) / Pow2(k)
  {
    RegionIs(k, address);
    RoundedTestIsRawTest(w, k, address);
    if InRegion(k, address) {
      MaskRoundsDown(address, w, k);
      PageContainsAddress(k, address, BitAnd(address, Mask(w, k)));
      var page, start := PageOfFault(w, k, address).value, 0x4000_0000 - 100 * Pow2(k);
      PageBounds(Pow2(k), page, 0);
      RemainderIs(address - start, Pow2(k), page, address - start - page * Pow2(k));
    }
  }

  lemma ZeroQuotient(d: int, s: nat)
    requires s > 0
    ensures TruncDiv(d, s) == 0 <==> d < s && -d < s
  {
    var m := if d >= 0 then d else -d;
    if m < s {
      RemainderIs(m, s, 0, m);
    } else {
      RoundingKeepsBounds(m, s, 1);
    }
  }

  /** C division sends the addresses of the page below the region to page 0 as well, all but the
      first: without the test before it the number says nothing. */
  lemma PageZeroIff(k: nat, address: int)
    requires 100 * Pow2(k) <= 0x4000_0000
    ensures ValidPageSize(k)
    ensures var start := 0x4000_0000 - 100 * Pow2(k);
            AddressToNum(k, address) == 0 <==> start - Pow2(k) < address < start + Pow2(k)
  {
    ZeroQuotient(address - Base(k), Pow2(k));
  }

  /** num2address and address2num undo each other on page starts. */
  lemma PageNumbersRoundTrip(k: nat, page: nat)
    requires ValidPageSize(k) && page < 100
    ensures NumToAddress(k, page).Some?
    ensures AddressToNum(k, NumToAddress(k, page).value) == page
  {
    var s := Pow2(k);
    PagesStartAt(k, page);
    assert page * s == s * page;
    MultipleMod(s, page);
  }

  lemma PageStartsRoundTrip(k: nat, address: nat)
    requires ValidPageSize(k) && InRegion(k, address) && address % Pow2(k) == 0
    ensures NumToAddress(k, AddressToNum(k, address)) == Some(address)
  {
    var s, m := Pow2(k), address / Pow2(k);
    var first := FrameInRegion(k, address);
    FrameBounds(address, s);
    PageOfStart(k, m, first);
    PageBounds(s, m, first);
  }

  /** There is an address for a page exactly if it is one of the 100. */
  lemma NoPageBeyond(k: nat, page: nat)
    requires ValidPageSize(k)
    ensures NumToAddress(k, page) == None <==> page >= 100
  {
    PagesStartAt(k, page);
  }
}
