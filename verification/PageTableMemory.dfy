/** The page pool and the functions that build and read page tables in it. */
module PageTableMemory {
  import opened Prelude
  import opened PageTableForest
  import opened PageTableSections

  /** A kernel panic ends the run; what a panicking call leaves behind is not specified. */
  datatype Outcome = Done | Panic

  /** What PageTable_map_address does to the flat maps of all tables. */
  ghost predicate MapsOne(m: Pool, m': Pool, base: nat, roles: seq<Role>, root: nat, v: Vpn, e: Entry) {
    forall t, w :: IsRoot(roles, t) && InRangeVpn(w) ==>
      Lookup(m', base, t, w) == if t == root && w == v then Some(e) else Lookup(m, base, t, w)
  }

  /** No table disappears from the way to a page. */
  ghost predicate KeepsTables(m: Pool, m': Pool, base: nat, roles: seq<Role>) {
    forall t, w :: IsRoot(roles, t) && InRangeVpn(w) ==>
      && (Level1(m, base, t, w).Some? ==> Level1(m', base, t, w).Some?)
      && (Level0(m, base, t, w).Some? ==> Level0(m', base, t, w).Some?)
  }

  /** The table at which the walk to page `v` has arrived after going down to `level`. */
  predicate Arrived(m: Pool, base: nat, root: nat, v: Vpn, level: nat, table: nat) {
    if level == 0 then Level0(m, base, root, v) == Some(table)
    else if level == 1 then Level1(m, base, root, v) == Some(table)
    else table == root
  }

  lemma ArrivedAtTable(m: Pool, base: nat, roles: seq<Role>, root: nat, v: Vpn, level: nat, table: nat)
    requires Forest(m, base, roles) && IsRoot(roles, root) && InRangeVpn(v) && level <= 2
    requires Arrived(m, base, root, v, level, table)
    ensures table < |roles| && IsTable(roles[table]) && LevelOf(roles[table]) == level
  {
    WalkInForest(m, base, roles, root, v);
  }

  /** One step down from `table`: to the table that its entry links to, or to a new one. */
  lemma StepDown(m: Pool, m': Pool, base: nat, roles: seq<Role>, root: nat, va: nat, level: nat, table: nat)
    requires 0 < level <= 2 && Forest(m, base, roles) && IsRoot(roles, root)
    requires Arrived(m, base, root, VpnOf(va), level, table) && Arrived(m', base, root, VpnOf(va), level, table)
    requires Child(m', base, table, LevelEntryNumber(va, level)).Some?
    requires m' == m || (Child(m, base, table, LevelEntryNumber(va, level)) == None
                         && Child(m', base, Child(m', base, table, LevelEntryNumber(va, level)).value,
                           LevelEntryNumber(va, 1)) == None)
    ensures Arrived(m', base, root, VpnOf(va), level - 1, Child(m', base, table, LevelEntryNumber(va, level)).value)
    ensures Missing(m', base, root, VpnOf(va)) == Missing(m, base, root, VpnOf(va)) - (if m' == m then 0 else 1)
    ensures forall l :: l == 0 || l == 1 ==>
      MissingAt(m', base, root, VpnOf(va), l) ==
      MissingAt(m, base, root, VpnOf(va), l) - (if m' != m && l == level - 1 then 1 else 0)
  {
  }

  /** Where an entry on the way is not used, at least one table is missing. */
  lemma MissingBelow(m: Pool, base: nat, root: nat, va: nat, level: nat, table: nat)
    requires 0 < level <= 2 && Arrived(m, base, root, VpnOf(va), level, table)
    requires Child(m, base, table, LevelEntryNumber(va, level)) == None
    ensures Missing(m, base, root, VpnOf(va)) > 0
  {
  }

  /** The number of tables of a level. */
  ghost function Count(roles: seq<Role>, level: nat): nat {
    if roles == [] then 0
    else Count(roles[..|roles| - 1], level) + (if roles[|roles| - 1].Inner? &&
      roles[|roles| - 1].level == level then 1 else 0)
  }

  lemma CountOneMore(roles: seq<Role>, r: Role, level: nat)
    ensures Count(roles + [r], level) == Count(roles, level) + (if r.Inner? && r.level == level then 1 else 0)
  {
    assert (roles + [r])[..|roles|] == roles;
  }

  /** 1 if the table of the level is missing on the way to page `v`. */
  function MissingAt(m: Pool, base: nat, root: nat, v: Vpn, level: nat): nat {
    if level == 1 then (if Level1(m, base, root, v) == None then 1 else 0)
    else (if Level0(m, base, root, v) == None then 1 else 0)
  }

  /** What PageTable_map_section does to the flat maps of all tables. */
  ghost predicate MapsSection(m: Pool, m': Pool, base: nat, roles: seq<Role>, root: nat,
                              vstart: nat, start: nat, n: nat, flags: Flags) {
    forall t, w :: IsRoot(roles, t) && InRangeVpn(w) ==>
      Lookup(m', base, t, w) ==
      if t == root && SectionEntry(vstart, start, n, flags, w).Some? then SectionEntry(vstart, start, n, flags, w)
      else Lookup(m, base, t, w)
  }

  /** After `k` pages, the next page needs a new table of a level only when it enters a new span. */
  lemma NextPageNeeds(m: Pool, base: nat, root: nat, vstart: nat, k: nat, level: nat)
    requires level <= 1
    requires k > 0 ==> Missing(m, base, root, VpnOf(vstart + (k - 1) * PAGE_SIZE)) == 0
    ensures MissingAt(m, base, root, VpnOf(vstart + k * PAGE_SIZE), level) <=
      Spanned(PageNumber(vstart), k + 1, level) - (if k == 0 then 0 else Spanned(PageNumber(vstart), k, level))
  {
    PageOfSection(vstart, k);
    if k > 0 {
      PageOfSection(vstart, k - 1);
      SameSpan(vstart + (k - 1) * PAGE_SIZE, vstart + k * PAGE_SIZE);
      SpannedStep(PageNumber(vstart), k, level);
      assert PageNumber(vstart) + k - 1 == PageNumber(vstart) + (k - 1);
    }
  }

  lemma SectionGrows(m: Pool, m': Pool, m'': Pool, base: nat, roles: seq<Role>, roles': seq<Role>, root: nat,
                     vstart: nat, start: nat, k: nat, flags: Flags)
    requires IsRoot(roles, root) && RolesGrow(roles, roles')
    requires MapsSection(m, m', base, roles, root, vstart, start, k, flags)
    requires MapsOne(m', m'', base, roles', root, VpnOf(vstart + k * PAGE_SIZE), LeafEntry(start + k * PAGE_SIZE,
      flags))
    ensures MapsSection(m, m'', base, roles, root, vstart, start, k + 1, flags)
  {
    forall t, w | IsRoot(roles, t) && InRangeVpn(w)
      ensures Lookup(m'', base, t, w) ==
        if t == root && SectionEntry(vstart, start, k + 1, flags, w).Some? then SectionEntry(vstart, start, k + 1,
          flags, w)
        else Lookup(m, base, t, w)
    {
      assert IsRoot(roles', t);
    }
  }

  /** The tables that `n` pages from page number `first` can need at most, of both levels. */
  function TablesNeeded(first: nat, n: nat): nat {
    if n == 0 then 0 else Spanned(first, n, 0) + Spanned(first, n, 1)
  }

  lemma TablesNeededGrows(first: nat, k: nat, n: nat)
    requires k <= n
    ensures TablesNeeded(first, k) <= TablesNeeded(first, n)
  {
    if k > 0 {
      SpannedGrows(first, k, n, 0);
      SpannedGrows(first, k, n, 1);
    }
  }

  /** No more tables of either level than spans entered. */
  ghost predicate CountsWithin(before: seq<Role>, after: seq<Role>, first: nat, n: nat) {
    forall l :: l == 0 || l == 1 ==> Count(after, l) <= Count(before, l) + (if n == 0 then 0 else Spanned(first, n, l))
  }

  /**
   What PageTable_map_address does: the flat map of one table changes at one page, no other
   table changes, and exactly the tables that were missing on the way are added.
   */
  ghost predicate Mapped(m: Pool, roles: seq<Role>, next: nat, m': Pool, roles': seq<Role>, next': nat, base: nat,
                         root: nat, v: Vpn, e: Entry) {
    && RolesGrow(roles, roles')
    && MapsOne(m, m', base, roles, root, v, e)
    && KeepsTables(m, m', base, roles)
    && next' == next + Missing(m, base, root, v)
    && Missing(m', base, root, v) == 0
    && Count(roles', 0) == Count(roles, 0) + MissingAt(m, base, root, v, 0)
    && Count(roles', 1) == Count(roles, 1) + MissingAt(m, base, root, v, 1)
  }

  lemma MappedThere(m: Pool, roles: seq<Role>, next: nat, m': Pool, roles': seq<Role>, next': nat, base: nat,
                    root: nat, v: Vpn, e: Entry)
    requires Mapped(m, roles, next, m', roles', next', base, root, v, e) && IsRoot(roles, root) && InRangeVpn(v)
    ensures Lookup(m', base, root, v) == Some(e)
  {
  }

  /** Writing the leaf entry at the end of the walk. */
  lemma LeafMaps(m: Pool, m': Pool, base: nat, roles: seq<Role>, roles': seq<Role>, root: nat, v: Vpn, table: nat,
                 e: Entry)
    requires Forest(m', base, roles') && RolesGrow(roles, roles') && IsRoot(roles, root) && InRangeVpn(v)
    requires Extends(m, m', base, roles) && Level0(m', base, root, v) == Some(table)
    requires e.flags.valid && e.flags.read
    ensures table < |roles'|
    ensures var m'' := m'[table := m'[table][v.i0 := e]];
      && Forest(m'', base, roles')
      && MapsOne(m, m'', base, roles, root, v, e) && KeepsTables(m, m'', base, roles)
      && Missing(m'', base, root, v) == 0
  {
    LeafChangesOnePage(m', base, roles', root, v, e);
    var m'' := m'[table := m'[table][v.i0 := e]];
    forall t, w | IsRoot(roles, t) && InRangeVpn(w)
      ensures Lookup(m'', base, t, w) == if t == root && w == v then Some(e) else Lookup(m, base, t, w)
      ensures Level1(m, base, t, w).Some? ==> Level1(m'', base, t, w).Some?
      ensures Level0(m, base, t, w).Some? ==> Level0(m'', base, t, w).Some?
    {
      assert IsRoot(roles', t);
    }
  }

  /** What is known after `k` pages of a section were mapped. */
  ghost predicate Progress(m: Pool, roles: seq<Role>, next: nat, m': Pool, roles': seq<Role>, next': nat, base: nat,
                           root: nat, vstart: nat, start: nat, k: nat, flags: Flags) {
    && RolesGrow(roles, roles')
    && MapsSection(m, m', base, roles, root, vstart, start, k, flags)
    && CountsWithin(roles, roles', PageNumber(vstart), k)
    && next' == next + (Count(roles', 0) - Count(roles, 0)) + (Count(roles', 1) - Count(roles, 1))
    && (k > 0 ==> Missing(m', base, root, VpnOf(vstart + (k - 1) * PAGE_SIZE)) == 0)
  }

  lemma NoPagesYet(m: Pool, roles: seq<Role>, next: nat, base: nat, root: nat, vstart: nat, start: nat, end: nat,
                   flags: Flags)
    requires vstart < WORD_MODULUS
    ensures Progress(m, roles, next, m, roles, next, base, root, vstart, start, 0, flags)
    ensures vstart == Cursor(vstart, 0)
    ensures start > end ==> PagesMapped(start, end) == 0
  {
  }

  lemma ProgressMade(m: Pool, roles: seq<Role>, next: nat, m': Pool, roles': seq<Role>, next': nat,
                     m'': Pool, roles'': seq<Role>, next'': nat, base: nat,
                     root: nat, vstart: nat, start: nat, k: nat, flags: Flags)
    requires IsRoot(roles, root)
    requires Progress(m, roles, next, m', roles', next', base, root, vstart, start, k, flags)
    requires Mapped(m', roles', next', m'', roles'', next'', base, root,
                    VpnOf(vstart + k * PAGE_SIZE), LeafEntry(start + k * PAGE_SIZE, flags))
    ensures Progress(m, roles, next, m'', roles'', next'', base, root, vstart, start, k + 1, flags)
  {
    SectionGrows(m, m', m'', base, roles, roles', root, vstart, start, k, flags);
    NextPageNeeds(m', base, root, vstart, k, 0);
    NextPageNeeds(m', base, root, vstart, k, 1);
  }

  lemma NextPageFits(m: Pool, roles: seq<Role>, next: nat, m': Pool, roles': seq<Role>, next': nat, base: nat,
                     root: nat, vstart: nat, start: nat, k: nat, flags: Flags)
    requires Progress(m, roles, next, m', roles', next', base, root, vstart, start, k, flags)
    ensures next' + Missing(m', base, root, VpnOf(vstart + k * PAGE_SIZE)) <= next + TablesNeeded(PageNumber(vstart),
      k + 1)
  {
    NextPageNeeds(m', base, root, vstart, k, 0);
    NextPageNeeds(m', base, root, vstart, k, 1);
  }

  lemma SectionArithmetic(start: nat, end: nat, k: nat)
    requires start + k * PAGE_SIZE <= end
    ensures k < PagesMapped(start, end)
    ensures start + k * PAGE_SIZE + PAGE_SIZE > end ==> k + 1 == PagesMapped(start, end)
    ensures Aligned(start) ==> Aligned(start + k * PAGE_SIZE)
  {
  }

  /** Where the two cursors of the loop stand after `k` pages. */
  ghost predicate OnPage(start: nat, end: nat, vstart: nat, pa: nat, va: nat, k: nat) {
    && pa == start + k * PAGE_SIZE && va == Cursor(vstart, k)
    && k <= PagesMapped(start, end) && (pa > end ==> k == PagesMapped(start, end))
  }

  lemma CursorMoves(vstart: nat, k: nat)
    ensures AddWord(Cursor(vstart, k), PAGE_SIZE) == Cursor(vstart, k + 1)
    ensures Aligned(vstart) ==> Aligned(Cursor(vstart, k))
  {
    PageOfSection(vstart, k);
  }

  lemma CursorVpn(vstart: nat, k: nat)
    ensures VpnOf(Cursor(vstart, k)) == VpnOf(vstart + k * PAGE_SIZE)
  {
    VpnOfWord(vstart + k * PAGE_SIZE);
  }

  /** The physical address of `va`, from the level-0 entry whether it is valid or not. */
  function Physical(m: Pool, base: nat, root: nat, va: nat): Option<nat> {
    match Level0(m, base, root, VpnOf(va))
    case None => None
    case Some(t) => Some(m[t][LevelEntryNumber(va, 0)].ppn * PAGE_SIZE + PageOffset(va))
  }

  /** A zeroed page that becomes a root is the table that maps nothing. */
  lemma NewRoot(m: Pool, base: nat, roles: seq<Role>, q: nat)
    requires Forest(m, base, roles) && q < |roles| && roles[q] == NotATable && m[q] == ZERO_TABLE
    ensures Forest(m, base, roles[q := Root])
    ensures forall v :: InRangeVpn(v) ==> Lookup(m, base, q, v) == None
  {
    var roles' := roles[q := Root];
    forall t | 0 <= t < |roles'| && IsTable(roles'[t])
      ensures TableFits(m, base, roles', t)
    {
      assert t != q ==> TableFits(m, base, roles, t);
      forall i | 0 <= i < ENTRIES
        ensures EntryFits(base, roles', t, i, m[t][i])
      {
        assert t != q ==> EntryFits(base, roles, t, i, m[t][i]);
      }
    }
  }

  /** Three sections mapped one after the other into an empty table. */
  lemma SectionsOverlay(m0: Pool, m1: Pool, m2: Pool, m3: Pool, base: nat, rs0: seq<Role>, rs1: seq<Role>,
                        rs2: seq<Role>,
                        root: nat, program: Section, vstart: nat, special: Section, userSpecial: Section)
    requires IsRoot(rs0, root) && RolesGrow(rs0, rs1) && RolesGrow(rs1, rs2)
    requires forall v :: InRangeVpn(v) ==> Lookup(m0, base, root, v) == None
    requires MapsSection(m0, m1, base, rs0, root, vstart, program.start, Size(program), USER_FLAGS)
    requires MapsSection(m1, m2, base, rs1, root, special.start, special.start, Size(special), SPECIAL_FLAGS)
    requires MapsSection(m2, m3, base, rs2, root, userSpecial.start, userSpecial.start, Size(userSpecial),
      SPECIAL_FLAGS)
    ensures forall v :: InRangeVpn(v) ==>
      Lookup(m3, base, root, v) == UserEntry(program, vstart, special, userSpecial, v)
    ensures forall t, v :: IsRoot(rs0, t) && t != root && InRangeVpn(v) ==>
      Lookup(m3, base, t, v) == Lookup(m0, base, t, v)
  {
    forall t, v | IsRoot(rs0, t) && InRangeVpn(v)
      ensures Lookup(m3, base, t, v) ==
        if t == root then UserEntry(program, vstart, special, userSpecial, v) else Lookup(m0, base, t, v)
    {
      assert IsRoot(rs1, t) && IsRoot(rs2, t);
    }
  }

  datatype Section = Section(start: nat, end: nat)

  function Size(s: Section): nat {
    PagesMapped(s.start, s.end)
  }

  const USER_FLAGS: Flags := Flags(false, true, true, true, true, false, false, false)
  const SPECIAL_FLAGS: Flags := Flags(false, true, true, true, false, false, false, false)

  /**
   The flat map of a user table: the program at its virtual start, and the two special
   sections at their own addresses; where they meet, the section that was mapped later wins.
   */
  function UserEntry(program: Section, vstart: nat, special: Section, userSpecial: Section, v: Vpn): Option<Entry> {
    var u := SectionEntry(userSpecial.start, userSpecial.start, Size(userSpecial), SPECIAL_FLAGS, v);
    var g := SectionEntry(special.start, special.start, Size(special), SPECIAL_FLAGS, v);
    if u.Some? then u else if g.Some? then g
    else SectionEntry(vstart, program.start, Size(program), USER_FLAGS, v)
  }

  /** PageTable_map_section comes to the end of the section. */
  ghost predicate Fits(s: Section) {
    s.start < WORD_MODULUS && s.end < WORD_MODULUS && LoopEnds(s.start, s.end)
  }

  ghost function UserTablesNeeded(program: Section, vstart: nat, special: Section, userSpecial: Section): nat {
    TablesNeeded(PageNumber(vstart), Size(program))
    + TablesNeeded(PageNumber(special.start), Size(special))
    + TablesNeeded(PageNumber(userSpecial.start), Size(userSpecial))
  }

  /** Mapping `n` pages adds no more tables of either level, and no more pages in all, than they can need. */
  lemma ProgressBound(m: Pool, roles: seq<Role>, next: nat, m': Pool, roles': seq<Role>, next': nat, base: nat,
                      root: nat, vstart: nat, start: nat, n: nat, flags: Flags)
    requires Progress(m, roles, next, m', roles', next', base, root, vstart, start, n, flags)
    ensures next' <= next + TablesNeeded(PageNumber(vstart), n)
    ensures n > 0 ==> next' <= next + ((n + 511) / 512 + 1) + ((n + 262143) / 262144 + 1)
    ensures n > 0 ==> Count(roles', 0) <= Count(roles, 0) + (n + 511) / 512 + 1
    ensures n > 0 ==> Count(roles', 1) <= Count(roles, 1) + (n + 262143) / 262144 + 1
  {
    if n > 0 {
      SpannedBound(PageNumber(vstart), n, 0);
      SpannedBound(PageNumber(vstart), n, 1);
    }
  }

  class Memory {
    /** The physical page number of the first page of the pool. */
    const base: nat
    var pages: Pool
    /** Pages below `next` have been handed out. */
    var next: nat
    ghost var roles: seq<Role>

    ghost predicate Valid()
      reads this
    {
      next == |roles| && Forest(pages, base, roles)
    }

    /** The pages of the pool hold anything at boot. */
    constructor (base: nat, pages: Pool)
      requires base + |pages| <= PPN_LIMIT
      ensures Valid() && next == 0 && this.base == base && this.pages == pages
    {
      this.base := base;
      this.pages := pages;
      next := 0;
      roles := [];
    }

    /** Hands out the next page, zeroed, or panics when the pool is used up. */
    method PageAlloc() returns (page: Option<nat>)
      requires Valid()
      modifies this
      ensures Valid() && |pages| == |old(pages)|
      ensures page == if old(next) < |pages| then Some(old(next)) else None
      ensures page == None ==> pages == old(pages) && next == old(next) && roles == old(roles)
      ensures page != None ==>
        pages == old(pages)[old(next) := ZERO_TABLE] && next == old(next) + 1 && roles == old(roles) + [NotATable]
      ensures page != None ==> forall i :: 0 <= i < 512 ==>
        pages[page.value][i] == Entry(Flags(false, false, false, false, false, false, false, false), 0)
      ensures Extends(old(pages), pages, base, old(roles))
      ensures forall r, v :: IsRoot(old(roles), r) && InRangeVpn(v) ==>
        Missing(pages, base, r, v) == Missing(old(pages), base, r, v)
    {
      if next >= |pages| {
        return None;
      }
      AllocationKeepsWalks(pages, base, roles);
      page := Some(next);
      pages := pages[next := ZERO_TABLE];
      roles := roles + [NotATable];
      next := next + 1;
    }

    /**
     Maps virtual page `va` to physical page `pa` in table `root`. The flat map of this table
     changes at that one page, no other table changes at all, and exactly the tables that
     were missing on the way are allocated.
     */
    method MapAddress(root: nat, va: nat, pa: nat, flags: Flags) returns (r: Outcome)
      requires Valid() && IsRoot(roles, root)
      modifies this
      ensures Valid() && |pages| == |old(pages)| && RolesGrow(old(roles), roles)
      ensures r == Done <==>
        Aligned(va) && Aligned(pa) &&
        old(next) + Missing(old(pages), base, root, VpnOf(va)) <= |pages|
      ensures r == Done ==>
        Mapped(old(pages), old(roles), old(next), pages, roles, next, base, root, VpnOf(va), LeafEntry(pa, flags))
      ensures r == Done ==> IsMappedTo(Lookup(pages, base, root, VpnOf(va)), pa, flags)
    {
      if !Aligned(va) || !Aligned(pa) {
        return Panic;
      }
      StartsAtRoot(root, VpnOf(va));
      hide Memory.OnTheWay, Missing, Mapped, VpnOf, LevelEntryNumber, LeafEntry;
      var table: nat := root;
      var level: nat := 2;
      while level > 0
        invariant 0 <= level <= 2
        invariant OnTheWay(old(pages), old(roles), old(next), root, VpnOf(va), level, table)
      {
        var linked := GoDown(root, va, level, table, old(pages), old(roles), old(next));
        if linked == None {
          return Panic;
        }
        table := linked.value;
        level := level - 1;
      }
      WriteLeaf(root, va, pa, flags, table, old(pages), old(roles), old(next));
      LeafIsMappedTo(pa, flags);
      MappedThere(old(pages), old(roles), old(next), pages, roles, next, base, root, VpnOf(va), LeafEntry(pa, flags));
      r := Done;
    }

    /** Where the loop of PageTable_map_address stands: the tables down to `level` are there, nothing else changed. */
    ghost predicate OnTheWay(m: Pool, rs: seq<Role>, n: nat, root: nat, v: Vpn, level: nat, table: nat)
      reads this
    {
      && Valid() && |pages| == |m| && RolesGrow(rs, roles) && IsRoot(rs, root) && InRangeVpn(v)
      && next + Missing(pages, base, root, v) == n + Missing(m, base, root, v)
      && Extends(m, pages, base, rs)
      && Arrived(pages, base, root, v, level, table)
      && (forall l :: l == 0 || l == 1 ==>
            Count(roles, l) + MissingAt(pages, base, root, v, l) == Count(rs, l) + MissingAt(m, base, root, v, l))
    }

    lemma StartsAtRoot(root: nat, v: Vpn)
      requires Valid() && IsRoot(roles, root) && InRangeVpn(v)
      ensures OnTheWay(pages, roles, next, root, v, 2, root)
    {
    }

    /** One turn of that loop: to the table that the entry links to, or to a new one. */
    method GoDown(root: nat, va: nat, level: nat, table: nat, ghost m: Pool, ghost rs: seq<Role>, ghost n: nat)
      returns (linked: Option<nat>)
      requires 0 < level <= 2 && OnTheWay(m, rs, n, root, VpnOf(va), level, table)
      modifies this
      ensures linked == None ==>
        && Valid() && |pages| == |m| && RolesGrow(rs, roles)
        && n + Missing(m, base, root, VpnOf(va)) > |m|
      ensures linked != None ==> OnTheWay(m, rs, n, root, VpnOf(va), level - 1, linked.value)
    {
      var i := LevelEntryNumber(va, level);
      ArrivedAtTable(pages, base, roles, root, VpnOf(va), level, table);
      ChildInForest(pages, base, roles, table, i);
      ghost var before, rolesBefore := pages, roles;
      if !pages[table][i].flags.valid {
        linked := LinkNew(root, va, level, table);
        if linked != None {
          ExtendsFurther(m, before, pages, base, rs, rolesBefore);
        } else {
          MissingBelow(pages, base, root, va, level, table);
        }
      } else {
        StepDown(pages, pages, base, roles, root, va, level, table);
        linked := Some(pages[table][i].ppn - base);
      }
    }

    /** The last step: the leaf entry of the page. */
    method WriteLeaf(root: nat, va: nat, pa: nat, flags: Flags, table: nat, ghost m: Pool, ghost rs: seq<Role>,
                     ghost n: nat)
      requires OnTheWay(m, rs, n, root, VpnOf(va), 0, table)
      modifies `pages
      ensures Valid() && |pages| == |m| && RolesGrow(rs, roles)
      ensures n + Missing(m, base, root, VpnOf(va)) <= |m|
      ensures Mapped(m, rs, n, pages, roles, next, base, root, VpnOf(va), LeafEntry(pa, flags))
    {
      var i := LevelEntryNumber(va, 0);
      LeafMaps(m, pages, base, rs, roles, root, VpnOf(va), table, LeafEntry(pa, flags));
      pages := pages[table := pages[table][i := LeafEntry(pa, flags)]];
    }

    /** Allocates the next table on the way to `va` and links it from the unused entry of `table`. */
    method LinkNew(ghost root: nat, va: nat, level: nat, table: nat) returns (page: Option<nat>)
      requires Valid() && 0 < level <= 2 && IsRoot(roles, root)
      requires Arrived(pages, base, root, VpnOf(va), level, table)
      requires Child(pages, base, table, LevelEntryNumber(va, level)) == None
      modifies this
      ensures Valid() && |pages| == |old(pages)| && RolesGrow(old(roles), roles)
      ensures Extends(old(pages), pages, base, old(roles))
      ensures page == None <==> old(next) == |pages|
      ensures page == None ==> pages == old(pages) && next == old(next)
      ensures page != None ==>
        && next == old(next) + 1
        && Missing(pages, base, root, VpnOf(va)) == Missing(old(pages), base, root, VpnOf(va)) - 1
        && Arrived(pages, base, root, VpnOf(va), level - 1, page.value)
        && (forall l :: l == 0 || l == 1 ==>
              Count(roles, l) + MissingAt(pages, base, root, VpnOf(va), l) ==
              Count(old(roles), l) + MissingAt(old(pages), base, root, VpnOf(va), l))
    {
      ghost var before, rolesBefore := pages, roles;
      var n := LevelEntryNumber(va, level);
      ArrivedAtTable(pages, base, roles, root, VpnOf(va), level, table);
      ChildInForest(pages, base, roles, table, n);
      page := PageAlloc();
      if page == None {
        return;
      }
      ghost var zeroed, rolesZeroed := pages, roles;
      LinkKeepsMap(pages, base, roles, table, n, page.value);
      pages := Linked(pages, base, table, n, page.value);
      roles := roles[page.value := Inner(table, n, level - 1)];
      ExtendsFurther(before, zeroed, pages, base, rolesBefore, rolesZeroed);
      StepDown(before, pages, base, rolesBefore, root, va, level, table);
      assert roles == rolesBefore + [Inner(table, n, level - 1)];
      CountOneMore(rolesBefore, Inner(table, n, level - 1), 0);
      CountOneMore(rolesBefore, Inner(table, n, level - 1), 1);
    }

    /**
     Maps a section of consecutive pages. It cannot fail for lack of pages when the pool has
     room for one table of each level per span of pages that the section enters.
     (The loop need not end for an end address in the last page of the address space.)
     */
    method MapSection(root: nat, start: nat, end: nat, vstart: nat, flags: Flags) returns (r: Outcome)
      requires Valid() && IsRoot(roles, root)
      requires start < WORD_MODULUS && end < WORD_MODULUS && vstart < WORD_MODULUS && LoopEnds(start, end)
      modifies this
      ensures Valid() && |pages| == |old(pages)| && RolesGrow(old(roles), roles)
      ensures r == Done ==>
        Progress(old(pages), old(roles), old(next), pages, roles, next, base,
                 root, vstart, start, PagesMapped(start, end), flags)
      ensures Aligned(start) && Aligned(vstart)
        && old(next) + TablesNeeded(PageNumber(vstart), PagesMapped(start, end)) <= |pages|
        ==> r == Done
    {
      var pa := start;
      var va := vstart;
      ghost var k := 0;
      NoPagesYet(pages, roles, next, base, root, vstart, start, end, flags);
      while pa <= end
        invariant Valid() && |pages| == |old(pages)| && OnPage(start, end, vstart, pa, va, k)
        invariant Progress(old(pages), old(roles), old(next), pages, roles, next, base, root, vstart, start, k, flags)
        decreases end + PAGE_SIZE - pa
      {
        NoWrapBeforeEnd(start, end, k);
        r, pa, va := SectionTurn(root, va, pa, end, flags, old(pages), old(roles), old(next), vstart, start, k);
        if r == Panic {
          return;
        }
        k := k + 1;
      }
      r := Done;
    }

    /** One turn of that loop. */
    method SectionTurn(root: nat, va: nat, pa: nat, end: nat, flags: Flags, ghost m: Pool, ghost rs: seq<Role>,
                       ghost n0: nat,
                       ghost vstart: nat, ghost start: nat, ghost k: nat)
      returns (r: Outcome, nextPa: nat, nextVa: nat)
      requires Valid() && IsRoot(rs, root) && OnPage(start, end, vstart, pa, va, k) && pa <= end
      requires pa + PAGE_SIZE < WORD_MODULUS
      requires Progress(m, rs, n0, pages, roles, next, base, root, vstart, start, k, flags)
      modifies this
      ensures Valid() && |pages| == |old(pages)| && RolesGrow(old(roles), roles)
      ensures nextPa == pa + PAGE_SIZE && OnPage(start, end, vstart, nextPa, nextVa, k + 1)
      ensures r == Done ==> Progress(m, rs, n0, pages, roles, next, base, root, vstart, start, k + 1, flags)
      ensures Aligned(start) && Aligned(vstart)
        && n0 + TablesNeeded(PageNumber(vstart), PagesMapped(start, end)) <= |pages|
        ==> r == Done
    {
      SectionArithmetic(start, end, k);
      hide Progress, TablesNeeded, Memory.Valid;
      r := MapPage(root, va, pa, flags, m, rs, n0, vstart, start, k, PagesMapped(start, end));
      CursorMoves(vstart, k);
      nextPa := AddWord(pa, PAGE_SIZE);
      nextVa := AddWord(va, PAGE_SIZE);
    }

    /** Maps page `k` of the `n` pages of a section at the cursor. */
    method MapPage(root: nat, va: nat, pa: nat, flags: Flags, ghost m: Pool, ghost rs: seq<Role>, ghost n0: nat,
                   ghost vstart: nat, ghost start: nat, ghost k: nat, ghost n: nat)
      returns (r: Outcome)
      requires Valid() && IsRoot(rs, root) && k < n
      requires va == Cursor(vstart, k) && pa == start + k * PAGE_SIZE
      requires Aligned(start) ==> Aligned(pa)
      requires Progress(m, rs, n0, pages, roles, next, base, root, vstart, start, k, flags)
      modifies this
      ensures Valid() && |pages| == |old(pages)| && RolesGrow(old(roles), roles)
      ensures r == Done ==> Progress(m, rs, n0, pages, roles, next, base, root, vstart, start, k + 1, flags)
      ensures Aligned(start) && Aligned(vstart) && n0 + TablesNeeded(PageNumber(vstart), n) <= |pages| ==> r == Done
    {
      hide Forest, Progress, TablesNeeded;
      CursorMoves(vstart, k);
      CursorVpn(vstart, k);
      TablesNeededGrows(PageNumber(vstart), k + 1, n);
      r := MapNext(root, va, pa, flags, m, rs, n0, vstart, start, k);
    }

    /** Maps page `k` of a section, the pages before it being mapped. */
    method MapNext(root: nat, va: nat, pa: nat, flags: Flags,
                   ghost m: Pool, ghost rs: seq<Role>, ghost n: nat, ghost vstart: nat, ghost start: nat, ghost k: nat)
      returns (r: Outcome)
      requires Valid() && IsRoot(rs, root)
      requires VpnOf(va) == VpnOf(vstart + k * PAGE_SIZE) && pa == start + k * PAGE_SIZE
      requires Aligned(vstart) ==> Aligned(va)
      requires Aligned(start) ==> Aligned(pa)
      requires Progress(m, rs, n, pages, roles, next, base, root, vstart, start, k, flags)
      modifies this
      ensures Valid() && |pages| == |old(pages)| && RolesGrow(old(roles), roles)
      ensures r == Done ==> Progress(m, rs, n, pages, roles, next, base, root, vstart, start, k + 1, flags)
      ensures Aligned(start) && Aligned(vstart) && n + TablesNeeded(PageNumber(vstart), k + 1) <= |pages| ==> r == Done
    {
      NextPageFits(m, rs, n, pages, roles, next, base, root, vstart, start, k, flags);
      ghost var before, rolesBefore, nextBefore := pages, roles, next;
      r := MapAddress(root, va, pa, flags);
      if r == Done {
        ProgressMade(m, rs, n, before, rolesBefore, nextBefore, pages, roles, next, base, root, vstart, start, k,
          flags);
      }
    }

    /**
     Makes the page table of a user program. Its flat map is exactly that of its three
     sections, and no other table changes. It cannot fail when the sections are aligned and
     the pool has room for the root and for the tables of the spans that the sections enter.
     */
    method UserInit(program: Section, vstart: nat, special: Section, userSpecial: Section) returns (table: Option<nat>)
      requires Valid() && Fits(program) && Fits(special) && Fits(userSpecial) && vstart < WORD_MODULUS
      modifies this
      ensures Valid() && RolesGrow(old(roles), roles)
      ensures table.Some? ==> table.value >= |old(roles)| && IsRoot(roles, table.value)
      ensures table.Some? ==> forall v :: InRangeVpn(v) ==>
        Lookup(pages, base, table.value, v) == UserEntry(program, vstart, special, userSpecial, v)
      ensures table.Some? ==> forall t, v :: IsRoot(old(roles), t) && InRangeVpn(v) ==>
        Lookup(pages, base, t, v) == Lookup(old(pages), base, t, v)
      ensures Aligned(program.start) && Aligned(vstart) && Aligned(special.start) && Aligned(userSpecial.start)
        && old(next) + 1 + UserTablesNeeded(program, vstart, special, userSpecial) <= |old(pages)|
        ==> table.Some?
    {
      var page := PageAlloc();
      if page == None {
        return None;
      }
      var root := page.value;
      NewRoot(pages, base, roles, root);
      roles := roles[root := Root];
      ghost var m0, rs0, n0 := pages, roles, next;
      var r := MapUserSections(root, program, vstart, special, userSpecial);
      table := if r == Done then Some(root) else None;
    }

    /** The three sections of a user table, in the table that maps nothing yet. */
    method MapUserSections(root: nat, program: Section, vstart: nat, special: Section, userSpecial: Section)
      returns (r: Outcome)
      requires Valid() && IsRoot(roles, root) && forall v :: InRangeVpn(v) ==> Lookup(pages, base, root, v) == None
      requires Fits(program) && Fits(special) && Fits(userSpecial) && vstart < WORD_MODULUS
      modifies this
      ensures Valid() && |pages| == |old(pages)| && RolesGrow(old(roles), roles)
      ensures r == Done ==> forall v :: InRangeVpn(v) ==>
        Lookup(pages, base, root, v) == UserEntry(program, vstart, special, userSpecial, v)
      ensures r == Done ==> forall t, v :: IsRoot(old(roles), t) && t != root && InRangeVpn(v) ==>
        Lookup(pages, base, t, v) == Lookup(old(pages), base, t, v)
      ensures Aligned(program.start) && Aligned(vstart) && Aligned(special.start) && Aligned(userSpecial.start)
        && old(next) + UserTablesNeeded(program, vstart, special, userSpecial) <= |pages|
        ==> r == Done
    {
      ghost var m0, rs0, n0 := pages, roles, next;
      r := MapSection(root, program.start, program.end, vstart, USER_FLAGS);
      if r == Panic {
        return;
      }
      ghost var m1, rs1, n1 := pages, roles, next;
      ProgressBound(m0, rs0, n0, m1, rs1, n1, base, root, vstart, program.start, Size(program), USER_FLAGS);
      r := MapSection(root, special.start, special.end, special.start, SPECIAL_FLAGS);
      if r == Panic {
        return;
      }
      ghost var m2, rs2, n2 := pages, roles, next;
      ProgressBound(m1, rs1, n1, m2, rs2, n2, base, root, special.start, special.start, Size(special), SPECIAL_FLAGS);
      r := MapSection(root, userSpecial.start, userSpecial.end, userSpecial.start, SPECIAL_FLAGS);
      if r == Panic {
        return;
      }
      SectionsOverlay(m0, m1, m2, pages, base, rs0, rs1, rs2, root, program, vstart, special, userSpecial);
    }

    /** PageTable_get_physical_address; None when it panics because an inner table is missing. */
    method GetPhysicalAddress(table: nat, va: nat) returns (pa: Option<nat>)
      requires Valid() && IsRoot(roles, table)
      ensures pa == Physical(pages, base, table, va)
    {
      var current: nat := table;
      var level: nat := 2;
      while level > 0
        invariant 0 <= level <= 2 && Arrived(pages, base, table, VpnOf(va), level, current)
      {
        ArrivedAtTable(pages, base, roles, table, VpnOf(va), level, current);
        var entry := pages[current][LevelEntryNumber(va, level)];
        ChildInForest(pages, base, roles, current, LevelEntryNumber(va, level));
        if !entry.flags.valid {
          return None;
        }
        current := entry.ppn - base;
        level := level - 1;
      }
      ArrivedAtTable(pages, base, roles, table, VpnOf(va), 0, current);
      pa := Some(pages[current][LevelEntryNumber(va, 0)].ppn * PAGE_SIZE + PageOffset(va));
    }

    /**
     PageTable_print_page_addresses, with the pairs that it prints as its result. `at` is the
     virtual address under construction: the entry numbers of the levels above are set.
     The result lists the mapped pages below `table`, each once, in ascending order.
     */
    method PrintPageAddresses(table: nat, level: nat, at: Vpn) returns (out: seq<(Vpn, nat)>)
      requires Valid() && table < |roles| && IsTable(roles[table]) && LevelOf(roles[table]) == level
      requires InRangeVpn(at)
      ensures Ascending(out)
      ensures forall k :: 0 <= k < |out| ==> Listed(pages, base, table, level, at, out[k])
      ensures forall v | InRangeVpn(v) && SameAbove(at, v, level) ::
        Below(pages, base, table, level, v).Some? ==>
        (v, Below(pages, base, table, level, v).value.ppn * PAGE_SIZE) in out
      decreases level
    {
      out := [];
      for i := 0 to ENTRIES
        invariant Ascending(out)
        invariant forall k :: 0 <= k < |out| ==>
          Listed(pages, base, table, level, at, out[k]) && Digit(out[k].0, level) < i
        invariant forall v | InRangeVpn(v) && SameAbove(at, v, level) && Digit(v, level) < i ::
          Below(pages, base, table, level, v).Some? ==>
          (v, Below(pages, base, table, level, v).value.ppn * PAGE_SIZE) in out
      {
        var entry := pages[table][i];
        if entry.flags.valid {
          var here := SetDigit(at, level, i);
          ghost var before := out;
          if level == 0 {
            out := out + [(here, entry.ppn * PAGE_SIZE)];
          } else {
            ChildInForest(pages, base, roles, table, i);
            var below := PrintPageAddresses(entry.ppn - base, level - 1, here);
            DumpStep(pages, base, table, level, at, i, before, below);
            out := out + below;
          }
        }
      }
    }

    /** The dump of a whole table lists the flat map: every mapped page once, no other, in ascending order. */
    method PrintTable(root: nat) returns (out: seq<(Vpn, nat)>)
      requires Valid() && IsRoot(roles, root)
      ensures Ascending(out)
      ensures forall line :: line in out <==>
        && InRangeVpn(line.0) && Lookup(pages, base, root, line.0).Some?
        && line.1 == Lookup(pages, base, root, line.0).value.ppn * PAGE_SIZE
    {
      out := PrintPageAddresses(root, 2, Vpn(0, 0, 0));
      forall v
        ensures Below(pages, base, root, 2, v) == Lookup(pages, base, root, v)
      {
        BelowRootIsLookup(pages, base, root, v);
      }
    }
  }
}
