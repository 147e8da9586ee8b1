/** Sections of consecutive pages: which pages a section maps and how many tables that takes. */
module PageTableSections {
  import opened Prelude
  import opened PageTableForest

  predicate Aligned(a: nat) {
    a % PAGE_SIZE == 0
  }

  /** The leaf entry that PageTable_map_address writes: valid and readable whatever `flags` says. */
  function LeafEntry(pa: nat, flags: Flags): Entry {
    Entry(flags.(valid := true, read := true), pa / PAGE_SIZE % PPN_LIMIT)
  }

  /**
   What an entry that maps a page to physical address `pa` has to be: valid and readable, with every
   other flag as it is asked for, and with the page number of the address, as far as it has 44 bits.
   */
  predicate IsMappedTo(e: Option<Entry>, pa: nat, flags: Flags) {
    && e.Some? && e.value.flags.valid && e.value.flags.read
    && e.value.flags.write == flags.write && e.value.flags.execute == flags.execute
    && e.value.flags.user == flags.user && e.value.flags.global == flags.global
    && e.value.flags.accessed == flags.accessed && e.value.flags.dirty == flags.dirty
    && (pa % 4096 == 0 ==> e.value.ppn * 4096 == pa % 0x100_0000_0000_0000)
  }

  lemma LeafIsMappedTo(pa: nat, flags: Flags)
    ensures IsMappedTo(Some(LeafEntry(pa, flags)), pa, flags)
  {
  }

  // ---------------------------------------------------------------- page numbers

  function PageNumber(va: nat): nat {
    va / PAGE_SIZE
  }

  /** The entry numbers are the digits of the page number to base 512. */
  lemma VpnOfNumber(va: nat)
    ensures var n := PageNumber(va);
      VpnOf(va) == Vpn(n / ENTRIES / ENTRIES % ENTRIES, n / ENTRIES % ENTRIES, n % ENTRIES)
  {
    DivDiv(va);
    DivDiv(va / 0x1000);
  }

  lemma DivDiv(a: nat)
    ensures a / 0x1000 / 0x200 == a / 0x20_0000
    ensures a / 0x1000 / 0x4_0000 == a / 0x4000_0000
    ensures a / 0x200 / 0x200 == a / 0x4_0000
  {
  }

  const VPN_COUNT: nat := 0x800_0000

  /** Addresses that agree in their low 39 bits have the same entry numbers. */
  lemma VpnWraps(va: nat, k: nat)
    ensures VpnOf(va + k * 0x80_0000_0000) == VpnOf(va)
  {
    var n := PageNumber(va);
    VpnOfNumber(va);
    VpnOfNumber(va + k * 0x80_0000_0000);
    assert PageNumber(va + k * 0x80_0000_0000) == n + (k * 0x4_0000) * 512;
    AddSpans(n, k * 0x4_0000);
    AddSpans(n / 512, k * 512);
    AddSpans(n / 512 / 512, k);
  }

  lemma AddSpans(n: nat, j: nat)
    ensures (n + j * 512) / 512 == n / 512 + j && (n + j * 512) % 512 == n % 512
  {
  }

  /** A virtual address is a word; its entry numbers do not see where it wraps around. */
  lemma VpnOfWord(va: nat)
    ensures VpnOf(va % WORD_MODULUS) == VpnOf(va)
  {
    var k := va / WORD_MODULUS;
    assert va == va % WORD_MODULUS + (k * 0x200_0000) * 0x80_0000_0000;
    VpnWraps(va % WORD_MODULUS, k * 0x200_0000);
  }

  /** Pages with the same entry numbers are a multiple of the address space apart. */
  lemma SameVpn(va: nat, vb: nat)
    requires VpnOf(va) == VpnOf(vb) && PageNumber(va) <= PageNumber(vb) < PageNumber(va) + VPN_COUNT
    ensures PageNumber(va) == PageNumber(vb)
  {
    VpnOfNumber(va);
    VpnOfNumber(vb);
    var a, b := PageNumber(va), PageNumber(vb);
    SameDigit(a, b);
    SameDigit(a / 512, b / 512);
    SameDigit(a / 512 / 512, b / 512 / 512);
  }

  lemma SameDigit(a: nat, b: nat)
    requires a % 512 == b % 512
    ensures b - a == (b / 512 - a / 512) * 512
  {
  }

  // ---------------------------------------------------------------- the pages of a section

  /** PageTable_map_section goes on while the physical address is not beyond the end, inclusively. */
  function PagesMapped(start: nat, end: nat): nat {
    if start <= end then (end - start) / PAGE_SIZE + 1 else 0
  }

  /** The cursor of the loop: the address of page `k` as a word. */
  function Cursor(start: nat, k: nat): nat {
    (start + k * PAGE_SIZE) % WORD_MODULUS
  }

  /** The loop comes to an address beyond the end. */
  ghost predicate LoopEnds(start: nat, end: nat) {
    exists k: nat :: Cursor(start, k) > end
  }

  /** Where the loop stands in the page of the end, if that is the last page of the address space. */
  lemma CursorInPage(start: nat, k: nat)
    ensures Cursor(start, k) % PAGE_SIZE == start % PAGE_SIZE
    ensures Cursor(start, k) <= WORD_MODULUS - PAGE_SIZE + start % PAGE_SIZE
  {
    var w := (start + k * PAGE_SIZE) / WORD_MODULUS;
    assert start + k * PAGE_SIZE == w * 0x10_0000_0000_0000 * PAGE_SIZE + Cursor(start, k);
    SameOffset(start, k);
    SameOffset(Cursor(start, k), w * 0x10_0000_0000_0000);
  }

  lemma SameOffset(a: nat, k: nat)
    ensures (a + k * PAGE_SIZE) % PAGE_SIZE == a % PAGE_SIZE
  {
  }

  /**
   The loop over the pages of a section is endless exactly when the end lies in the last page of the
   address space, not before the first byte of the section in its page: then no address is beyond it.
   */
  lemma LoopEndsExactlyIf(start: nat, end: nat)
    requires start < WORD_MODULUS && end < WORD_MODULUS
    ensures LoopEnds(start, end) <==> end < WORD_MODULUS - PAGE_SIZE || start % PAGE_SIZE > end % PAGE_SIZE
  {
    if end < WORD_MODULUS - PAGE_SIZE || start % PAGE_SIZE > end % PAGE_SIZE {
      var k := (WORD_MODULUS - 1 - start) / PAGE_SIZE;
      assert Cursor(start, k) == WORD_MODULUS - PAGE_SIZE + start % PAGE_SIZE;
    } else {
      forall k: nat
        ensures Cursor(start, k) <= end
      {
        CursorInPage(start, k);
      }
    }
  }

  /** ... and when it ends, no address has wrapped around before. */
  lemma NoWrapBeforeEnd(start: nat, end: nat, k: nat)
    requires start < WORD_MODULUS && end < WORD_MODULUS && LoopEnds(start, end)
    requires start + k * PAGE_SIZE <= end
    ensures start + k * PAGE_SIZE + PAGE_SIZE < WORD_MODULUS
  {
    LoopEndsExactlyIf(start, end);
    SameOffset(start, k);
  }

  /** The pages that hold at least one byte of the section. */
  function PagesCovered(start: nat, end: nat): nat {
    if start <= end then (end - start + PAGE_SIZE - 1) / PAGE_SIZE else 0
  }

  /** The end is taken inclusively: one page too many is mapped exactly when the size is a whole number of pages. */
  lemma OnePageTooMany(start: nat, end: nat)
    ensures start <= end ==>
      PagesMapped(start, end) == PagesCovered(start, end) + (if Aligned(end - start) then 1 else 0)
    ensures start > end ==> PagesMapped(start, end) == 0 == PagesCovered(start, end)
  {
  }

  /** What the first `n` pages of a section map `v` to; a later page replaces an earlier one. */
  function SectionEntry(vstart: nat, start: nat, n: nat, flags: Flags, v: Vpn): Option<Entry> {
    if n == 0 then None
    else if VpnOf(vstart + (n - 1) * PAGE_SIZE) == v then Some(LeafEntry(start + (n - 1) * PAGE_SIZE, flags))
    else SectionEntry(vstart, start, n - 1, flags, v)
  }

  /** As long as the section is not larger than the address space, every one of its pages is there. */
  lemma {:induction false} SectionMapsEachPage(vstart: nat, start: nat, n: nat, flags: Flags, k: nat)
    requires k < n <= VPN_COUNT
    ensures SectionEntry(vstart, start, n, flags, VpnOf(vstart + k * PAGE_SIZE)) ==
            Some(LeafEntry(start + k * PAGE_SIZE, flags))
  {
    if k < n - 1 {
      var va, vb := vstart + k * PAGE_SIZE, vstart + (n - 1) * PAGE_SIZE;
      assert PageNumber(va) == PageNumber(vstart) + k && PageNumber(vb) == PageNumber(vstart) + (n - 1);
      if VpnOf(va) == VpnOf(vb) {
        SameVpn(va, vb);
      }
      SectionMapsEachPage(vstart, start, n - 1, flags, k);
    }
  }

  /** ... and no page that is not one of its pages is. */
  lemma {:induction false} SectionMapsNothingElse(vstart: nat, start: nat, n: nat, flags: Flags, v: Vpn)
    returns (k: nat)
    requires SectionEntry(vstart, start, n, flags, v).Some?
    ensures k < n && VpnOf(vstart + k * PAGE_SIZE) == v
    ensures SectionEntry(vstart, start, n, flags, v) == Some(LeafEntry(start + k * PAGE_SIZE, flags))
  {
    if VpnOf(vstart + (n - 1) * PAGE_SIZE) == v {
      k := n - 1;
    } else {
      k := SectionMapsNothingElse(vstart, start, n - 1, flags, v);
    }
  }

  // ---------------------------------------------------------------- how many tables a section needs

  function CeilDiv(a: nat, b: nat): nat
    requires b > 0
  {
    (a + b - 1) / b
  }

  /** The pages that one table of the level covers. */
  function Span(level: nat): nat {
    if level == 1 then 512 * 512 else 512
  }

  /** The number of tables of the level that `n` consecutive pages from page number `a` lie in. */
  function Spanned(a: nat, n: nat, level: nat): nat
    requires n > 0
  {
    (a + n - 1) / Span(level) - a / Span(level) + 1
  }

  lemma SpannedBound(a: nat, n: nat, level: nat)
    requires n > 0
    ensures Spanned(a, n, level) <= CeilDiv(n, Span(level)) + 1
  {
  }

  /** Two pages in the same span share their tables down to that level. */
  lemma SameSpan(va: nat, vb: nat)
    ensures PageNumber(va) / Span(1) == PageNumber(vb) / Span(1) ==> VpnOf(va).i2 == VpnOf(vb).i2
    ensures PageNumber(va) / Span(0) == PageNumber(vb) / Span(0) ==>
      VpnOf(va).i2 == VpnOf(vb).i2 && VpnOf(va).i1 == VpnOf(vb).i1
  {
    VpnOfNumber(va);
    VpnOfNumber(vb);
    DivDiv(PageNumber(va));
    DivDiv(PageNumber(vb));
  }

  /** Moving on by one page enters a new span or stays in the old one. */
  lemma SpannedStep(a: nat, n: nat, level: nat)
    requires n > 0
    ensures Spanned(a, n + 1, level) ==
      Spanned(a, n, level) + (if (a + n) / Span(level) == (a + n - 1) / Span(level) then 0 else 1)
  {
  }

  lemma SpannedGrows(a: nat, k: nat, n: nat, level: nat)
    requires 0 < k <= n
    ensures 1 <= Spanned(a, k, level) <= Spanned(a, n, level)
  {
  }

  /** The `k`-th page of a section that starts at `vstart`. */
  lemma PageOfSection(vstart: nat, k: nat)
    ensures PageNumber(vstart + k * PAGE_SIZE) == PageNumber(vstart) + k
    ensures Aligned((vstart + k * PAGE_SIZE) % WORD_MODULUS) <==> Aligned(vstart)
    ensures ((vstart + k * PAGE_SIZE) % WORD_MODULUS + PAGE_SIZE) % WORD_MODULUS ==
      (vstart + (k + 1) * PAGE_SIZE) % WORD_MODULUS
  {
    assert WORD_MODULUS == 0x10_0000_0000_0000 * PAGE_SIZE;
  }
}
