/**
 The address translation that the hardware performs on the tables, after section 4.3.2 of
 the RISC-V Privileged Architecture (20211203), for Sv39 and without access permissions
 and the A and D bits.
 */
module PageTableHardware {
  import opened Prelude
  import opened PageTableForest
  import opened PageTableMemory

  /** `level` is where the leaf was found; above 0 the page is a superpage. */
  datatype Translation = PageFault | Translated(pa: nat, level: nat)

  datatype Access = Load | Store | Fetch

  /**
   Step 5 of the algorithm, with MXR clear: what a leaf lets code do that runs in user mode, or in
   supervisor mode while the bit SUM of sstatus is set or clear.
   */
  predicate Permits(f: Flags, userMode: bool, sum: bool, access: Access) {
    && (match access case Load => f.read case Store => f.write case Fetch => f.execute)
    && (if userMode then f.user else !f.user || (sum && access != Fetch))
  }

  /** Bits 39 to 63 of the address equal bit 38. */
  predicate Canonical(va: Word) {
    va < 0x40_0000_0000 || va >= WORD_MODULUS - 0x40_0000_0000
  }

  /** The number of 4096-byte pages in a page of the level. */
  function PagesOf(level: nat): nat {
    if level == 0 then 1 else if level == 1 then 512 else 512 * 512
  }

  /** Steps 2 to 5 and 8 of the algorithm, at table `a`; memory outside the pool is not modelled. */
  function Walk(m: Pool, base: nat, a: nat, va: Word, level: nat): Translation
    decreases level
  {
    if a >= |m| then PageFault
    else
      var pte := m[a][LevelEntryNumber(va, level)];
      if !pte.flags.valid || (!pte.flags.read && pte.flags.write) then
        PageFault
      else if pte.flags.read || pte.flags.execute then
        if pte.ppn % PagesOf(level) != 0 then
          PageFault
        else
          Translated((pte.ppn + va / PAGE_SIZE % PagesOf(level)) * PAGE_SIZE + PageOffset(va), level)
      else if level == 0 || pte.ppn < base then
        PageFault
      else
        Walk(m, base, pte.ppn - base, va, level - 1)
  }

  function Translate(m: Pool, base: nat, root: nat, va: Word): Translation {
    if Canonical(va) then Walk(m, base, root, va, 2) else PageFault
  }

  lemma WalkOfLeafTable(m: Pool, base: nat, roles: seq<Role>, t: nat, va: Word)
    requires Forest(m, base, roles) && t < |roles| && roles[t].Inner? && roles[t].level == 0
    ensures var e := m[t][LevelEntryNumber(va, 0)];
      Walk(m, base, t, va, 0) ==
      if e.flags.valid then Translated(e.ppn * PAGE_SIZE + PageOffset(va), 0) else PageFault
  {
    assert TableFits(m, base, roles, t);
    assert EntryFits(base, roles, t, LevelEntryNumber(va, 0), m[t][LevelEntryNumber(va, 0)]);
  }

  lemma WalkOfInnerTable(m: Pool, base: nat, roles: seq<Role>, t: nat, va: Word, level: nat)
    requires Forest(m, base, roles) && t < |roles| && IsTable(roles[t]) && LevelOf(roles[t]) == level && level > 0
    ensures Walk(m, base, t, va, level) ==
      match Child(m, base, t, LevelEntryNumber(va, level))
      case None => PageFault
      case Some(u) => Walk(m, base, u, va, level - 1)
  {
    ChildInForest(m, base, roles, t, LevelEntryNumber(va, level));
    assert TableFits(m, base, roles, t);
    assert EntryFits(base, roles, t, LevelEntryNumber(va, level), m[t][LevelEntryNumber(va, level)]);
  }

  /**
   On every table of a forest the hardware finds exactly the flat map: it translates a
   canonical address if and only if its page is mapped, always from a leaf of level 0, and
   then to the address that PageTable_get_physical_address returns.
   */
  lemma HardwareSeesTheMap(m: Pool, base: nat, roles: seq<Role>, root: nat, va: Word)
    requires Forest(m, base, roles) && IsRoot(roles, root)
    ensures Translate(m, base, root, va) ==
      match Lookup(m, base, root, VpnOf(va))
      case None => PageFault
      case Some(e) => if Canonical(va) then Translated(e.ppn * PAGE_SIZE + PageOffset(va), 0) else PageFault
    ensures Translate(m, base, root, va).Translated? ==>
      Physical(m, base, root, va) == Some(Translate(m, base, root, va).pa)
  {
    var v := VpnOf(va);
    WalkInForest(m, base, roles, root, v);
    WalkOfInnerTable(m, base, roles, root, va, 2);
    if Level1(m, base, root, v).Some? {
      WalkOfInnerTable(m, base, roles, Level1(m, base, root, v).value, va, 1);
      if Level0(m, base, root, v).Some? {
        WalkOfLeafTable(m, base, roles, Level0(m, base, root, v).value, va);
      }
    }
  }

  /**
   PageTable_get_physical_address looks neither at the valid bit of the last entry nor at the
   address bits above its entry numbers: it answers whenever the level-0 table exists. So it
   agrees with the hardware if and only if that table is missing, or the page is mapped and the
   address is canonical.
   */
  lemma PhysicalAgreesWithHardware(m: Pool, base: nat, roles: seq<Role>, root: nat, va: Word)
    requires Forest(m, base, roles) && IsRoot(roles, root)
    ensures (match Physical(m, base, root, va)
             case None => Translate(m, base, root, va) == PageFault
             case Some(pa) => Translate(m, base, root, va) == Translated(pa, 0))
      <==> (Level0(m, base, root, VpnOf(va)) == None || (Canonical(va) && Lookup(m, base, root, VpnOf(va)).Some?))
  {
    HardwareSeesTheMap(m, base, roles, root, va);
  }
}
