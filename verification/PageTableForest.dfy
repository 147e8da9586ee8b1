/**
 Sv39 page tables as they lie in the page pool, and the flat map from virtual pages to
 leaf entries that they stand for.
 */
module PageTableForest {
  import opened Prelude

  const PAGE_SIZE: nat := 4096
  const ENTRIES: nat := 512
  const PPN_LIMIT: nat := 0x1000_0000_0000

  datatype Flags = Flags(
    valid: bool, read: bool, write: bool, execute: bool, user: bool,
    global: bool, accessed: bool, dirty: bool)

  const NO_FLAGS: Flags := Flags(false, false, false, false, false, false, false, false)

  datatype Entry = Entry(flags: Flags, ppn: nat)

  const ZERO_ENTRY: Entry := Entry(NO_FLAGS, 0)

  type Table = t: seq<Entry> | |t| ==
    ENTRIES witness seq(ENTRIES, _ => Entry(Flags(false, false, false, false, false, false, false, false), 0))

  /** The pages of the pool; page `p` has the physical page number `base + p`. */
  type Pool = seq<Table>

  // ---------------------------------------------------------------- virtual addresses

  /** The three entry numbers of a virtual address; bits 39 and up are not used. */
  datatype Vpn = Vpn(i2: nat, i1: nat, i0: nat)

  predicate InRangeVpn(v: Vpn) {
    v.i2 < ENTRIES && v.i1 < ENTRIES && v.i0 < ENTRIES
  }

  /** VirtualAddress_get_level_entry_number. */
  function LevelEntryNumber(va: nat, level: nat): (n: nat)
    ensures n < ENTRIES
  {
    if level == 0 then va / 0x1000 % ENTRIES
    else if level == 1 then va / 0x20_0000 % ENTRIES
    else va / 0x4000_0000 % ENTRIES
  }

  function PageOffset(va: nat): nat {
    va % PAGE_SIZE
  }

  function VpnOf(va: nat): (v: Vpn)
    ensures InRangeVpn(v)
  {
    Vpn(LevelEntryNumber(va, 2), LevelEntryNumber(va, 1), LevelEntryNumber(va, 0))
  }

  /** The virtual address of a page: VirtualAddress_set_level_entry_number at every level, from 0. */
  function AddressOf(v: Vpn): nat {
    v.i2 * 0x4000_0000 + v.i1 * 0x20_0000 + v.i0 * 0x1000
  }

  /** ... which is aligned to a page and has these entry numbers. */
  lemma AddressOfPage(v: Vpn)
    requires InRangeVpn(v)
    ensures VpnOf(AddressOf(v)) == v && PageOffset(AddressOf(v)) == 0 && AddressOf(v) < 0x80_0000_0000
  {
    var a := AddressOf(v);
    LastDigit(v.i2 * 512 + v.i1, v.i0);
    LastDigit(v.i2, v.i1);
    assert a == (v.i2 * 0x4_0000 + v.i1 * 0x200 + v.i0) * 0x1000;
    assert a / 0x1000 == (v.i2 * 512 + v.i1) * 512 + v.i0;
    assert a / 0x20_0000 == v.i2 * 512 + v.i1;
    assert a / 0x4000_0000 == v.i2;
  }

  lemma LastDigit(high: nat, low: nat)
    requires low < 512
    ensures (high * 512 + low) % 512 == low
  {
  }

  // ---------------------------------------------------------------- walking the tables

  /** The table that a valid inner entry links to (PageTableEntry_get_linked). */
  function Child(m: Pool, base: nat, p: nat, i: nat): (t: Option<nat>)
    ensures t.Some? ==> t.value < |m|
  {
    if p < |m| && i < ENTRIES && m[p][i].flags.valid && base <= m[p][i].ppn < base + |m|
    then Some(m[p][i].ppn - base) else None
  }

  /** The table of level 0 or 1 on the way from `root` to page `v`. */
  function Level1(m: Pool, base: nat, root: nat, v: Vpn): (t: Option<nat>)
    ensures t.Some? ==> t.value < |m|
  {
    Child(m, base, root, v.i2)
  }

  function Level0(m: Pool, base: nat, root: nat, v: Vpn): (t: Option<nat>)
    ensures t.Some? ==> t.value < |m|
  {
    match Level1(m, base, root, v)
    case None => None
    case Some(p) => Child(m, base, p, v.i1)
  }

  /** The flat map: the leaf entry of page `v` in the table `root`. */
  function Lookup(m: Pool, base: nat, root: nat, v: Vpn): Option<Entry> {
    match Level0(m, base, root, v)
    case None => None
    case Some(p) => if v.i0 < ENTRIES && m[p][v.i0].flags.valid then Some(m[p][v.i0]) else None
  }

  /** The number of tables that mapping page `v` has to add. */
  function Missing(m: Pool, base: nat, root: nat, v: Vpn): nat {
    if Level1(m, base, root, v) == None then 2
    else if Level0(m, base, root, v) == None then 1
    else 0
  }

  // ---------------------------------------------------------------- the invariant

  /** What an allocated page is used for. An inner table remembers the one entry that links to it. */
  datatype Role = NotATable | Root | Inner(parent: nat, index: nat, level: nat)

  function LevelOf(r: Role): nat {
    match r
    case NotATable => 3
    case Root => 2
    case Inner(_, _, level) => level
  }

  /**
   Entry `i` of table `p`. A valid entry above level 0 has no other flag and links to an allocated
   table that belongs to this entry alone; a valid entry of level 0 is a readable leaf; all
   other entries are still as `Page_alloc` left them.
   */
  predicate EntryFits(base: nat, roles: seq<Role>, p: nat, i: nat, e: Entry)
    requires p < |roles|
  {
    if !e.flags.valid then
      e.flags == NO_FLAGS
    else if LevelOf(roles[p]) == 0 then
      e.flags.read
    else
      && e.flags == NO_FLAGS.(valid := true)
      && base <= e.ppn < base + |roles|
      && roles[e.ppn - base] == Inner(p, i, LevelOf(roles[p]) - 1)
  }

  predicate IsTable(r: Role) {
    r != NotATable && LevelOf(r) <= 2
  }

  ghost predicate TableFits(m: Pool, base: nat, roles: seq<Role>, p: nat)
    requires p < |roles| <= |m|
  {
    forall i :: 0 <= i < ENTRIES ==> EntryFits(base, roles, p, i, m[p][i])
  }

  /** The tables form a forest: every inner table is a distinct page with one parent entry. */
  ghost predicate Forest(m: Pool, base: nat, roles: seq<Role>) {
    && |roles| <= |m| && base + |m| <= PPN_LIMIT
    && (forall p :: 0 <= p < |roles| && IsTable(roles[p]) ==> TableFits(m, base, roles, p))
    && (forall p :: 0 <= p < |roles| && roles[p].Inner? ==> roles[p].level <= 1)
  }

  predicate IsRoot(roles: seq<Role>, r: nat) {
    r < |roles| && roles[r] == Root
  }

  // ---------------------------------------------------------------- walks in a forest

  lemma ChildInForest(m: Pool, base: nat, roles: seq<Role>, p: nat, i: nat)
    requires Forest(m, base, roles) && p < |roles| && i < ENTRIES
    requires IsTable(roles[p]) && LevelOf(roles[p]) > 0
    ensures Child(m, base, p, i).Some? <==> m[p][i].flags.valid
    ensures Child(m, base, p, i).Some? ==>
      Child(m, base, p, i).value < |roles| && roles[Child(m, base, p, i).value] == Inner(p, i, LevelOf(roles[p]) - 1)
  {
    assert TableFits(m, base, roles, p);
    assert EntryFits(base, roles, p, i, m[p][i]);
  }

  /** A walk only meets tables of the right level, and each knows the way back to the root. */
  lemma WalkInForest(m: Pool, base: nat, roles: seq<Role>, r: nat, v: Vpn)
    requires Forest(m, base, roles) && IsRoot(roles, r) && InRangeVpn(v)
    ensures var t1 := Level1(m, base, r, v);
      && (t1.Some? ==> t1.value < |roles| && roles[t1.value] == Inner(r, v.i2, 1))
      && (t1.Some? <==> m[r][v.i2].flags.valid)
    ensures var t0 := Level0(m, base, r, v);
      t0.Some? ==> t0.value < |roles| && roles[t0.value] == Inner(Level1(m, base, r, v).value, v.i1, 0)
  {
    ChildInForest(m, base, roles, r, v.i2);
    if Level1(m, base, r, v).Some? {
      ChildInForest(m, base, roles, Level1(m, base, r, v).value, v.i1);
    }
  }

  // ---------------------------------------------------------------- what map_address does to a forest

  const ZERO_TABLE: Table := seq(ENTRIES, _ => ZERO_ENTRY)

  /** No page is mapped differently, and no table on the way to a page is replaced. */
  ghost predicate Extends(m: Pool, m': Pool, base: nat, roles: seq<Role>) {
    forall r, v :: IsRoot(roles, r) && InRangeVpn(v) ==>
      && Lookup(m', base, r, v) == Lookup(m, base, r, v)
      && (Level1(m, base, r, v).Some? ==> Level1(m', base, r, v) == Level1(m, base, r, v))
      && (Level0(m, base, r, v).Some? ==> Level0(m', base, r, v) == Level0(m, base, r, v))
  }

  /** Pages in use keep their use; only free pages get a new one. */
  ghost predicate RolesGrow(roles: seq<Role>, roles': seq<Role>) {
    |roles| <= |roles'| && forall p :: 0 <= p < |roles| ==> roles'[p] == roles[p]
  }

  lemma ExtendsFurther(m: Pool, m': Pool, m'': Pool, base: nat, roles: seq<Role>, roles': seq<Role>)
    requires Extends(m, m', base, roles) && Extends(m', m'', base, roles') && RolesGrow(roles, roles')
    ensures Extends(m, m'', base, roles)
  {
    forall r, v | IsRoot(roles, r) && InRangeVpn(v)
      ensures Lookup(m'', base, r, v) == Lookup(m, base, r, v)
      ensures Level1(m, base, r, v).Some? ==> Level1(m'', base, r, v) == Level1(m, base, r, v)
      ensures Level0(m, base, r, v).Some? ==> Level0(m'', base, r, v) == Level0(m, base, r, v)
    {
      assert IsRoot(roles', r);
    }
  }

  /** Pages outside the forest do not matter to walks inside it. */
  lemma AllocationKeepsWalks(m: Pool, base: nat, roles: seq<Role>)
    requires Forest(m, base, roles) && |roles| < |m|
    ensures var m' := m[|roles| := ZERO_TABLE];
      && Forest(m', base, roles + [NotATable])
      && Extends(m, m', base, roles)
      && (forall r, v :: IsRoot(roles, r) && InRangeVpn(v) ==> Missing(m', base, r, v) == Missing(m, base, r, v))
  {
    var m' := m[|roles| := ZERO_TABLE];
    var roles' := roles + [NotATable];
    forall p | 0 <= p < |roles'| && IsTable(roles'[p])
      ensures TableFits(m', base, roles', p)
    {
      assert TableFits(m, base, roles, p);
      forall i | 0 <= i < ENTRIES
        ensures EntryFits(base, roles', p, i, m'[p][i])
      {
        assert EntryFits(base, roles, p, i, m[p][i]);
      }
    }
    forall r, v | IsRoot(roles, r) && InRangeVpn(v)
      ensures Level1(m', base, r, v) == Level1(m, base, r, v)
      ensures Level0(m', base, r, v) == Level0(m, base, r, v)
      ensures Lookup(m', base, r, v) == Lookup(m, base, r, v)
    {
      WalkInForest(m, base, roles, r, v);
    }
  }

  function Linked(m: Pool, base: nat, p: nat, i: nat, q: nat): Pool
    requires p < |m| && i < ENTRIES
  {
    m[p := m[p][i := Entry(m[p][i].flags.(valid := true), base + q)]]
  }

  /** Linking a zeroed page from an unused inner entry makes the page a table and maps nothing. */
  lemma LinkKeepsMap(m: Pool, base: nat, roles: seq<Role>, p: nat, i: nat, q: nat)
    requires Forest(m, base, roles) && p < |roles| && q < |roles| && i < ENTRIES
    requires IsTable(roles[p]) && LevelOf(roles[p]) > 0 && !m[p][i].flags.valid
    requires roles[q] == NotATable && m[q] == ZERO_TABLE
    ensures var m' := Linked(m, base, p, i, q);
      var roles' := roles[q := Inner(p, i, LevelOf(roles[p]) - 1)];
      && Forest(m', base, roles')
      && Child(m', base, p, i) == Some(q)
      && Extends(m, m', base, roles)
  {
    hide LevelEntryNumber;
    var m' := Linked(m, base, p, i, q);
    var roles' := roles[q := Inner(p, i, LevelOf(roles[p]) - 1)];
    assert p != q;
    assert EntryFits(base, roles, p, i, m[p][i]) by { assert TableFits(m, base, roles, p); }
    forall t | 0 <= t < |roles'| && IsTable(roles'[t])
      ensures TableFits(m', base, roles', t)
    {
      assert t != q ==> TableFits(m, base, roles, t);
      forall k | 0 <= k < ENTRIES
        ensures EntryFits(base, roles', t, k, m'[t][k])
      {
        assert t != q ==> EntryFits(base, roles, t, k, m[t][k]);
      }
    }
    forall r, v | IsRoot(roles, r) && InRangeVpn(v)
      ensures Lookup(m', base, r, v) == Lookup(m, base, r, v)
      ensures Level1(m, base, r, v).Some? ==> Level1(m', base, r, v) == Level1(m, base, r, v)
      ensures Level0(m, base, r, v).Some? ==> Level0(m', base, r, v) == Level0(m, base, r, v)
    {
      WalkInForest(m, base, roles, r, v);
      WalkInForest(m', base, roles', r, v);
    }
  }

  /** Writing a leaf entry changes the flat map at the one page that leads to it. */
  lemma LeafChangesOnePage(m: Pool, base: nat, roles: seq<Role>, r: nat, v: Vpn, e: Entry)
    requires Forest(m, base, roles) && IsRoot(roles, r) && InRangeVpn(v)
    requires Level0(m, base, r, v).Some? && e.flags.valid && e.flags.read
    ensures Level0(m, base, r, v).value < |roles|
    ensures var t := Level0(m, base, r, v).value;
      var m' := m[t := m[t][v.i0 := e]];
      && Forest(m', base, roles)
      && (forall r', v' :: IsRoot(roles, r') && InRangeVpn(v') ==>
            && Level1(m', base, r', v') == Level1(m, base, r', v')
            && Level0(m', base, r', v') == Level0(m, base, r', v')
            && Lookup(m', base, r', v') == if r' == r && v' == v then Some(e) else Lookup(m, base, r', v'))
  {
    WalkInForest(m, base, roles, r, v);
    var t := Level0(m, base, r, v).value;
    var m' := m[t := m[t][v.i0 := e]];
    forall p | 0 <= p < |roles| && IsTable(roles[p])
      ensures TableFits(m', base, roles, p)
    {
      assert TableFits(m, base, roles, p);
      forall k | 0 <= k < ENTRIES
        ensures EntryFits(base, roles, p, k, m'[p][k])
      {
        assert EntryFits(base, roles, p, k, m[p][k]);
      }
    }
    forall r', v' | IsRoot(roles, r') && InRangeVpn(v')
      ensures Level1(m', base, r', v') == Level1(m, base, r', v')
      ensures Level0(m', base, r', v') == Level0(m, base, r', v')
      ensures Lookup(m', base, r', v') == if r' == r && v' == v then Some(e) else Lookup(m, base, r', v')
    {
      WalkInForest(m, base, roles, r', v');
    }
  }

  // ---------------------------------------------------------------- the dump

  /** The entry number of the level (VirtualAddress_get_level_entry_number on the bit-fields). */
  function Digit(v: Vpn, level: nat): nat {
    if level == 0 then v.i0 else if level == 1 then v.i1 else v.i2
  }

  /** VirtualAddress_set_level_entry_number on the bit-fields. */
  function SetDigit(v: Vpn, level: nat, n: nat): Vpn {
    if level == 0 then v.(i0 := n) else if level == 1 then v.(i1 := n) else v.(i2 := n)
  }

  /** The two pages agree in the entry numbers above the level. */
  predicate SameAbove(v: Vpn, w: Vpn, level: nat) {
    (level <= 1 ==> v.i2 == w.i2) && (level == 0 ==> v.i1 == w.i1)
  }

  /** The leaf entry of page `v` as found from a table of the given level. */
  function Below(m: Pool, base: nat, table: nat, level: nat, v: Vpn): Option<Entry>
    decreases level
  {
    if level == 0 then
      if table < |m| && v.i0 < ENTRIES && m[table][v.i0].flags.valid then Some(m[table][v.i0]) else None
    else if level > 2 then None
    else match Child(m, base, table, Digit(v, level))
      case None => None
      case Some(t) => Below(m, base, t, level - 1, v)
  }

  lemma BelowRootIsLookup(m: Pool, base: nat, root: nat, v: Vpn)
    ensures Below(m, base, root, 2, v) == Lookup(m, base, root, v)
  {
    if Level1(m, base, root, v).Some? {
      var t := Level1(m, base, root, v).value;
      assert Below(m, base, t, 1, v) ==
        match Child(m, base, t, v.i1) case None => None case Some(u) => Below(m, base, u, 0, v);
    }
  }

  ghost predicate Ascending(out: seq<(Vpn, nat)>) {
    forall j, k :: 0 <= j < k < |out| ==> AddressOf(out[j].0) < AddressOf(out[k].0)
  }

  /** One line of the dump: a mapped page with its physical address. */
  predicate Listed(m: Pool, base: nat, table: nat, level: nat, at: Vpn, line: (Vpn, nat)) {
    && InRangeVpn(line.0) && SameAbove(at, line.0, level)
    && Below(m, base, table, level, line.0).Some?
    && line.1 == Below(m, base, table, level, line.0).value.ppn * PAGE_SIZE
  }

  /** The order of addresses is decided by the highest entry number that differs. */
  lemma HigherDigitDecides(v: Vpn, w: Vpn, level: nat)
    requires InRangeVpn(v) && InRangeVpn(w) && level <= 2
    requires SameAbove(v, w, level) && Digit(v, level) < Digit(w, level)
    ensures AddressOf(v) < AddressOf(w)
  {
  }

  /** Appending what lies below entry `i` of a table above level 0. */
  lemma DumpStep(m: Pool, base: nat, table: nat, level: nat, at: Vpn, i: nat, before: seq<(Vpn, nat)>,
                 below: seq<(Vpn, nat)>)
    requires 0 < level <= 2 && i < ENTRIES && InRangeVpn(at) && Child(m, base, table, i).Some?
    requires Ascending(before) && Ascending(below)
    requires forall k :: 0 <= k < |before| ==>
      Listed(m, base, table, level, at, before[k]) && Digit(before[k].0, level) < i
    requires forall k :: 0 <= k < |below| ==>
      Listed(m, base, Child(m, base, table, i).value, level - 1, SetDigit(at, level, i), below[k])
    ensures Ascending(before + below)
    ensures forall k :: 0 <= k < |below| ==>
      Listed(m, base, table, level, at, below[k]) && Digit(below[k].0, level) == i
  {
    forall k | 0 <= k < |below|
      ensures Listed(m, base, table, level, at, below[k]) && Digit(below[k].0, level) == i
    {
      assert Listed(m, base, Child(m, base, table, i).value, level - 1, SetDigit(at, level, i), below[k]);
    }
    forall j, k | 0 <= j < |before| && 0 <= k < |below|
      ensures AddressOf(before[j].0) < AddressOf(below[k].0)
    {
      assert Listed(m, base, table, level, at, before[j]) && Listed(m, base, table, level, at, below[k]);
      HigherDigitDecides(before[j].0, below[k].0, level);
    }
  }
}
