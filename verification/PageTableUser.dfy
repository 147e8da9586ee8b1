/** The page table of a user program as the program and the kernel see it. */
module PageTableUser {
  import opened Prelude
  import opened PageTableForest
  import opened PageTableSections
  import opened PageTableMemory
  import opened PageTableHardware

  /** The virtual page number `k` pages after `va`. */
  function PageAt(va: nat, k: nat): Vpn {
    VpnOf(va + k * PAGE_SIZE)
  }

  /** The `n` pages from `va` and the `m` pages from `vb` have no page in common. */
  ghost predicate Apart(va: nat, n: nat, vb: nat, m: nat) {
    forall i: nat, j: nat :: i < n && j < m ==> PageAt(va, i) != PageAt(vb, j)
  }

  /** The pages of the section, the surplus one included, lie in the part of memory that Sv39 can map to itself. */
  predicate MapsToItself(s: Section) {
    Aligned(s.start) && s.start + Size(s) * PAGE_SIZE <= VPN_COUNT * PAGE_SIZE
  }

  /** The program overlaps neither special section. (The two special sections may overlap each other.) */
  ghost predicate Separate(program: Section, vstart: nat, special: Section, userSpecial: Section) {
    && Size(program) <= VPN_COUNT && MapsToItself(special) && MapsToItself(userSpecial)
    && Apart(vstart, Size(program), special.start, Size(special))
    && Apart(vstart, Size(program), userSpecial.start, Size(userSpecial))
  }

  /** `v` is one of the `n` pages from `va`. */
  ghost predicate IsPageOf(va: nat, n: nat, v: Vpn) {
    exists k: nat :: k < n && PageAt(va, k) == v
  }

  lemma SectionMapsExactlyItsPages(vstart: nat, start: nat, n: nat, flags: Flags, v: Vpn)
    requires n <= VPN_COUNT
    ensures SectionEntry(vstart, start, n, flags, v).Some? <==> IsPageOf(vstart, n, v)
    ensures forall k: nat :: k < n && PageAt(vstart, k) == v ==>
      SectionEntry(vstart, start, n, flags, v) == Some(LeafEntry(start + k * PAGE_SIZE, flags))
  {
    if SectionEntry(vstart, start, n, flags, v).Some? {
      var k := SectionMapsNothingElse(vstart, start, n, flags, v);
      assert PageAt(vstart, k) == v;
    }
    forall k: nat | k < n && PageAt(vstart, k) == v
      ensures SectionEntry(vstart, start, n, flags, v) == Some(LeafEntry(start + k * PAGE_SIZE, flags))
    {
      SectionMapsEachPage(vstart, start, n, flags, k);
    }
  }

  /** Two sections that map to themselves agree on the pages that they share. */
  lemma SamePageOfBoth(s: Section, i: nat, t: Section, j: nat)
    requires MapsToItself(s) && MapsToItself(t) && i < Size(s) && j < Size(t)
    requires PageAt(s.start, i) == PageAt(t.start, j)
    ensures s.start + i * PAGE_SIZE == t.start + j * PAGE_SIZE
  {
    var va, vb := s.start + i * PAGE_SIZE, t.start + j * PAGE_SIZE;
    AlignedPage(s.start, i);
    AlignedPage(t.start, j);
    if PageNumber(va) <= PageNumber(vb) {
      SameVpn(va, vb);
    } else {
      SameVpn(vb, va);
    }
  }

  /**
   In the layout of the kernel one special section ends where the other starts. So the
   surplus page of the first is the first page of the second, and the two are not apart.
   */
  lemma AdjacentSpecialsOverlap(special: Section, userSpecial: Section)
    requires special.start <= special.end == userSpecial.start <= userSpecial.end
    requires Aligned(special.start) && Aligned(userSpecial.start)
    ensures !Apart(special.start, Size(special), userSpecial.start, Size(userSpecial))
    ensures Size(special) == PagesCovered(special.start, special.end) + 1
  {
    OnePageTooMany(special.start, special.end);
    var k := Size(special) - 1;
    assert special.start + k * PAGE_SIZE == userSpecial.start;
    assert PageAt(special.start, k) == PageAt(userSpecial.start, 0);
  }

  /**
   When the program overlaps neither special section, a user table is the union of three
   maps: page `k` of the program leads to page `k` of its memory with the user bit, every page
   of the two special sections leads to itself without it, and no other page is mapped.
   */
  lemma UserTableIsUnion(program: Section, vstart: nat, special: Section, userSpecial: Section, v: Vpn)
    requires Separate(program, vstart, special, userSpecial)
    ensures forall k: nat :: k < Size(program) && PageAt(vstart, k) == v ==>
      UserEntry(program, vstart, special, userSpecial, v) == Some(LeafEntry(program.start + k * PAGE_SIZE, USER_FLAGS))
    ensures forall k: nat :: k < Size(special) && PageAt(special.start, k) == v ==>
      UserEntry(program, vstart, special, userSpecial, v) ==
      Some(LeafEntry(special.start + k * PAGE_SIZE, SPECIAL_FLAGS))
    ensures forall k: nat :: k < Size(userSpecial) && PageAt(userSpecial.start, k) == v ==>
      UserEntry(program, vstart, special, userSpecial, v) ==
      Some(LeafEntry(userSpecial.start + k * PAGE_SIZE, SPECIAL_FLAGS))
    ensures UserEntry(program, vstart, special, userSpecial, v).Some? <==>
      || IsPageOf(vstart, Size(program), v)
      || IsPageOf(special.start, Size(special), v)
      || IsPageOf(userSpecial.start, Size(userSpecial), v)
  {
    SectionMapsExactlyItsPages(vstart, program.start, Size(program), USER_FLAGS, v);
    SectionMapsExactlyItsPages(special.start, special.start, Size(special), SPECIAL_FLAGS, v);
    SectionMapsExactlyItsPages(userSpecial.start, userSpecial.start, Size(userSpecial), SPECIAL_FLAGS, v);
    forall i: nat, j: nat | i < Size(special) && j < Size(userSpecial) &&
      PageAt(special.start, i) == v == PageAt(userSpecial.start, j)
      ensures special.start + i * PAGE_SIZE == userSpecial.start + j * PAGE_SIZE
    {
      SamePageOfBoth(special, i, userSpecial, j);
    }
  }

  /** In the layout of the kernel, user programs lie below both special sections. */
  lemma ProgramBelowIsSeparate(program: Section, vstart: nat, special: Section, userSpecial: Section)
    requires MapsToItself(special) && MapsToItself(userSpecial) && Aligned(vstart)
    requires vstart + Size(program) * PAGE_SIZE <= special.start
    requires vstart + Size(program) * PAGE_SIZE <= userSpecial.start
    ensures Separate(program, vstart, special, userSpecial)
  {
    BelowIsApart(vstart, Size(program), special);
    BelowIsApart(vstart, Size(program), userSpecial);
  }

  lemma BelowIsApart(va: nat, n: nat, s: Section)
    requires MapsToItself(s) && Aligned(va) && va + n * PAGE_SIZE <= s.start
    ensures Apart(va, n, s.start, Size(s))
  {
    forall i: nat, j: nat | i < n && j < Size(s)
      ensures PageAt(va, i) != PageAt(s.start, j)
    {
      AlignedPage(va, i);
      AlignedPage(s.start, j);
      if PageAt(va, i) == PageAt(s.start, j) {
        SameVpn(va + i * PAGE_SIZE, s.start + j * PAGE_SIZE);
      }
    }
  }

  // ---------------------------------------------------------------- one program and another

  /** The memory of the two programs has no page in common. */
  predicate OnOwnPages(a: Section, b: Section) {
    || a.start + PagesCovered(a.start, a.end) * PAGE_SIZE <= b.start
    || b.start + PagesCovered(b.start, b.end) * PAGE_SIZE <= a.start
  }

  /** The entry lets user code into a page of the program. */
  ghost predicate OpensUp(e: Option<Entry>, b: Section) {
    && e.Some? && e.value.flags.user
    && exists j: nat :: j < PagesCovered(b.start, b.end) && LeadsToPage(e.value, b.start, j)
  }

  predicate LeadsToPage(e: Entry, start: nat, j: nat) {
    e.ppn * PAGE_SIZE == start + j * PAGE_SIZE
  }

  /**
   A user table keeps its program out of another program's memory if and only if the other
   program does not start where this one ends. If it does, the surplus page of this program
   is the first page of the other, and user code can reach it.
   */
  lemma ProgramsAreIsolatedExactlyIf(a: Section, vstart: nat, special: Section, userSpecial: Section, b: Section)
    requires Separate(a, vstart, special, userSpecial) && OnOwnPages(a, b)
    requires Aligned(a.start) && a.start < a.end && a.end < PPN_LIMIT * PAGE_SIZE
    requires Aligned(b.start) && b.start < b.end
    ensures (forall v :: !OpensUp(UserEntry(a, vstart, special, userSpecial, v), b)) <==> a.end != b.start
  {
    hide UserEntry, Separate, Aligned, OpensUp, OnOwnPages;
    if a.end == b.start {
      SurplusPageOpens(a, vstart, special, userSpecial, b);
    }
    forall v | OpensUp(UserEntry(a, vstart, special, userSpecial, v), b)
      ensures a.end == b.start
    {
      OnlyTheSurplusPage(a, vstart, special, userSpecial, b, v);
    }
  }

  lemma SurplusPageOpens(a: Section, vstart: nat, special: Section, userSpecial: Section, b: Section)
    requires Separate(a, vstart, special, userSpecial) && a.end == b.start
    requires Aligned(a.start) && a.start < a.end && a.end < PPN_LIMIT * PAGE_SIZE
    requires Aligned(b.start) && b.start < b.end
    ensures OpensUp(UserEntry(a, vstart, special, userSpecial, PageAt(vstart, Size(a) - 1)), b)
  {
    LastPage(a);
    var k := Size(a) - 1;
    UserTableIsUnion(a, vstart, special, userSpecial, PageAt(vstart, k));
    hide Separate, UserEntry, SectionEntry, Size;
    LeafAddress(a.start + k * PAGE_SIZE, USER_FLAGS);
    var e := UserEntry(a, vstart, special, userSpecial, PageAt(vstart, k));
    assert LeadsToPage(e.value, b.start, 0);
  }

  lemma LastPage(a: Section)
    requires Aligned(a.start) && Aligned(a.end) && a.start < a.end
    ensures Size(a) > 0 && a.start + (Size(a) - 1) * PAGE_SIZE == a.end
  {
  }

  /**
   The same for the page pool: a user table opens a page of the pool to user code if and only if
   the pool starts where the program ends, and then it is the first page alone. That page is the
   first one that Page_alloc hands out, which PageTable_kernel_init takes for its root table.
   */
  lemma PoolIsIsolatedExactlyIf(a: Section, vstart: nat, special: Section, userSpecial: Section, base: nat, n: nat)
    requires Separate(a, vstart, special, userSpecial) && OnOwnPages(a, PoolSection(base, n)) && n > 0
    requires Aligned(a.start) && a.start < a.end && a.end < PPN_LIMIT * PAGE_SIZE
    ensures (forall v :: !OpensUp(UserEntry(a, vstart, special, userSpecial, v), PoolSection(base, n)))
      <==> a.end != base * PAGE_SIZE
    ensures forall v :: OpensUp(UserEntry(a, vstart, special, userSpecial, v), PoolSection(base, n)) ==>
      UserEntry(a, vstart, special, userSpecial, v).value.ppn == base
  {
    ProgramsAreIsolatedExactlyIf(a, vstart, special, userSpecial, PoolSection(base, n));
    forall v | OpensUp(UserEntry(a, vstart, special, userSpecial, v), PoolSection(base, n))
      ensures UserEntry(a, vstart, special, userSpecial, v).value.ppn == base
    {
      OnlyTheSurplusPage(a, vstart, special, userSpecial, PoolSection(base, n), v);
    }
  }

  /** The memory of the page pool. */
  function PoolSection(base: nat, n: nat): Section {
    Section(base * PAGE_SIZE, (base + n) * PAGE_SIZE)
  }

  lemma OnlyTheSurplusPage(a: Section, vstart: nat, special: Section, userSpecial: Section, b: Section, v: Vpn)
    requires Separate(a, vstart, special, userSpecial) && OnOwnPages(a, b)
    requires Aligned(a.start) && a.start < a.end && a.end < PPN_LIMIT * PAGE_SIZE
    requires Aligned(b.start) && b.start < b.end
    requires OpensUp(UserEntry(a, vstart, special, userSpecial, v), b)
    ensures a.end == b.start && UserEntry(a, vstart, special, userSpecial, v).value.ppn * PAGE_SIZE == b.start
  {
    var e := UserEntry(a, vstart, special, userSpecial, v).value;
    UserTableIsUnion(a, vstart, special, userSpecial, v);
    assert IsPageOf(vstart, Size(a), v);
    var k: nat :| k < Size(a) && PageAt(vstart, k) == v;
    assert e == LeafEntry(a.start + k * PAGE_SIZE, USER_FLAGS);
    AlignedPage(a.start, k);
    LeafAddress(a.start + k * PAGE_SIZE, USER_FLAGS);
    var j: nat :| j < PagesCovered(b.start, b.end) && LeadsToPage(e, b.start, j);
    OnePageTooMany(a.start, a.end);
    PagesMeet(a, b, k, j);
  }

  lemma PagesMeet(a: Section, b: Section, k: nat, j: nat)
    requires Aligned(a.start) && a.start < a.end && Aligned(b.start) && b.start < b.end && OnOwnPages(a, b)
    requires k < Size(a) && j < PagesCovered(b.start, b.end)
    requires a.start + k * PAGE_SIZE == b.start + j * PAGE_SIZE
    ensures a.end == b.start && j == 0
  {
    OnePageTooMany(a.start, a.end);
  }

  lemma SamePage(va: nat, offset: nat)
    requires Aligned(va) && offset < PAGE_SIZE
    ensures VpnOf(va + offset) == VpnOf(va) && PageOffset(va + offset) == offset
  {
    assert PageNumber(va + offset) == PageNumber(va);
    VpnOfNumber(va);
    VpnOfNumber(va + offset);
  }

  lemma LeafAddress(pa: nat, flags: Flags)
    requires Aligned(pa) && pa < PPN_LIMIT * PAGE_SIZE
    ensures LeafEntry(pa, flags).ppn * PAGE_SIZE == pa
  {
  }

  /** A byte of a mapped page is translated to the same byte of the page it is mapped to. */
  lemma MappedByte(m: Pool, base: nat, roles: seq<Role>, root: nat, va: nat, offset: nat, pa: nat, flags: Flags)
    requires Forest(m, base, roles) && IsRoot(roles, root)
    requires Lookup(m, base, root, VpnOf(va)) == Some(LeafEntry(pa, flags))
    requires Aligned(va) && Aligned(pa) && pa < PPN_LIMIT * PAGE_SIZE
    requires offset < PAGE_SIZE && va + offset < 0x40_0000_0000
    ensures Translate(m, base, root, va + offset) == Translated(pa + offset, 0)
  {
    SamePage(va, offset);
    LeafAddress(pa, flags);
    HardwareSeesTheMap(m, base, roles, root, va + offset);
  }

  /** What PageTable_user_init ensures of the table that it makes. */
  ghost predicate IsUserTable(m: Pool, base: nat, root: nat,
                              program: Section, vstart: nat, special: Section, userSpecial: Section) {
    forall v :: InRangeVpn(v) ==> Lookup(m, base, root, v) == UserEntry(program, vstart, special, userSpecial, v)
  }

  lemma ProgramEntry(m: Pool, base: nat, root: nat,
                     program: Section, vstart: nat, special: Section, userSpecial: Section, k: nat)
    requires IsUserTable(m, base, root, program, vstart, special, userSpecial)
    requires Separate(program, vstart, special, userSpecial) && k < Size(program)
    ensures Lookup(m, base, root, PageAt(vstart, k)) == Some(LeafEntry(program.start + k * PAGE_SIZE, USER_FLAGS))
  {
    UserTableIsUnion(program, vstart, special, userSpecial, PageAt(vstart, k));
  }

  lemma AlignedPage(start: nat, k: nat)
    requires Aligned(start)
    ensures Aligned(start + k * PAGE_SIZE)
  {
  }

  /**
   In a table that has the flat map of PageTable_user_init, the hardware translates every
   byte of the program to the program's own memory.
   */
  lemma ProgramIsReachable(m: Pool, base: nat, roles: seq<Role>, root: nat,
                           program: Section, vstart: nat, special: Section, userSpecial: Section, k: nat, offset: nat)
    requires Forest(m, base, roles) && IsRoot(roles, root)
    requires IsUserTable(m, base, root, program, vstart, special, userSpecial)
    requires Separate(program, vstart, special, userSpecial)
    requires Aligned(vstart) && Aligned(program.start)
    requires k < Size(program) && offset < PAGE_SIZE
    requires program.start + k * PAGE_SIZE < PPN_LIMIT * PAGE_SIZE && vstart + k * PAGE_SIZE + offset < 0x40_0000_0000
    ensures Translate(m, base, root, vstart + k * PAGE_SIZE + offset) ==
      Translated(program.start + k * PAGE_SIZE + offset, 0)
  {
    ProgramEntry(m, base, root, program, vstart, special, userSpecial, k);
    AlignedPage(vstart, k);
    AlignedPage(program.start, k);
    MappedByte(m, base, roles, root, vstart + k * PAGE_SIZE, offset, program.start + k * PAGE_SIZE, USER_FLAGS);
  }

  // ---------------------------------------------------------------- permissions

  lemma PermissionsOfFlags(e: Option<Entry>, pa: nat, user: bool)
    requires IsMappedTo(e, pa, if user then USER_FLAGS else SPECIAL_FLAGS)
    ensures !e.value.flags.global && !e.value.flags.accessed && !e.value.flags.dirty
    ensures forall access :: Permits(e.value.flags, true, false, access) <==> user
    ensures forall sum, access :: Permits(e.value.flags, false, sum, access) <==> !user || (sum && access != Fetch)
  {
  }

  /**
   What the hardware permits on a user table: on the pages of the program user code may read, write
   and execute, and the kernel may read and write while SUM is set, as it keeps it. On the pages of
   the special sections user code may do nothing, and the kernel all three.
   */
  lemma UserPermissions(program: Section, vstart: nat, special: Section, userSpecial: Section, v: Vpn)
    requires Separate(program, vstart, special, userSpecial)
    ensures IsPageOf(vstart, Size(program), v) ==>
      var e := UserEntry(program, vstart, special, userSpecial, v);
      && e.Some? && e.value.flags.valid
      && !e.value.flags.global && !e.value.flags.accessed && !e.value.flags.dirty
      && (forall access :: Permits(e.value.flags, true, false, access))
      && (forall sum, access :: Permits(e.value.flags, false, sum, access) <==> sum && access != Fetch)
    ensures IsPageOf(special.start, Size(special), v) || IsPageOf(userSpecial.start, Size(userSpecial), v) ==>
      var e := UserEntry(program, vstart, special, userSpecial, v);
      && e.Some? && e.value.flags.valid
      && !e.value.flags.global && !e.value.flags.accessed && !e.value.flags.dirty
      && (forall access :: !Permits(e.value.flags, true, false, access))
      && (forall sum, access :: Permits(e.value.flags, false, sum, access))
  {
    UserTableIsUnion(program, vstart, special, userSpecial, v);
    var e := UserEntry(program, vstart, special, userSpecial, v);
    if k: nat :| k < Size(program) && PageAt(vstart, k) == v {
      LeafIsMappedTo(program.start + k * PAGE_SIZE, USER_FLAGS);
      PermissionsOfFlags(e, program.start + k * PAGE_SIZE, true);
    }
    if k: nat :| k < Size(special) && PageAt(special.start, k) == v {
      LeafIsMappedTo(special.start + k * PAGE_SIZE, SPECIAL_FLAGS);
      PermissionsOfFlags(e, special.start + k * PAGE_SIZE, false);
    }
    if k: nat :| k < Size(userSpecial) && PageAt(userSpecial.start, k) == v {
      LeafIsMappedTo(userSpecial.start + k * PAGE_SIZE, SPECIAL_FLAGS);
      PermissionsOfFlags(e, userSpecial.start + k * PAGE_SIZE, false);
    }
  }
}
