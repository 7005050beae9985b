/**
 * The decision logic of virtio_iommu_translate in
 * hw/virtio/virtio-iommu.c: which TLB entry a device access at an address
 * gets, and which fault the device reports instead.
 *
 * The fault is returned as a value (the source queues it on the event
 * virtqueue); the mutex the source holds is not modelled.
 */
module IommuTranslate {
  import opened Wrappers
  import opened IommuTypes
  import opened IommuTables

  /** IOMMUAccessFlags: bit 0 asks for read access, bit 1 for write. */
  type AccessFlags = x: int | 0 <= x < 4

  const IOMMU_NONE: AccessFlags := 0
  const IOMMU_RO: AccessFlags := 1
  const IOMMU_WO: AccessFlags := 2
  const IOMMU_RW: AccessFlags := 3

  /** Flags of a MAP request (section 5.13.6.5 of VIRTIO 1.2). */
  const MAP_F_READ: u32 := 1
  const MAP_F_WRITE: u32 := 2

  /** Fault reasons and fault flags of a fault report (section 5.13.6.9 of
      VIRTIO 1.2). */
  const FAULT_R_UNKNOWN: u8 := 0
  const FAULT_R_DOMAIN: u8 := 1
  const FAULT_R_MAPPING: u8 := 2
  const FAULT_F_READ: u32 := 1
  const FAULT_F_WRITE: u32 := 2
  const FAULT_F_ADDRESS: u32 := 0x100

  predicate ReadBit(x: nat) {
    x % 2 == 1
  }

  predicate WriteBit(x: nat) {
    (x / 2) % 2 == 1
  }

  /** IOMMUTLBEntry without its address space and mask. */
  datatype TlbEntry = TlbEntry(iova: u64, translatedAddr: u64, perm: AccessFlags)

  /** What virtio_iommu_report_fault is asked to report. */
  datatype Fault = Fault(reason: u8, flags: u32, endpoint: u32, address: u64)

  /** The entry translate starts from: the identity, with no permission. */
  function Untranslated(addr: u64): TlbEntry {
    TlbEntry(addr, addr, IOMMU_NONE)
  }

  /** The fault flags of an access with permission `flag` to a mapping
      with MAP flags `mapFlags`: READ when a read is asked and the mapping
      does not allow it, WRITE likewise; zero exactly when the mapping
      allows everything that is asked. */
  function PermissionFault(flag: AccessFlags, mapFlags: u32): (f: u32)
    ensures ReadBit(f) <==> ReadBit(flag) && !ReadBit(mapFlags)
    ensures WriteBit(f) <==> WriteBit(flag) && !WriteBit(mapFlags)
    ensures f == 0 <==> (ReadBit(flag) ==> ReadBit(mapFlags)) && (WriteBit(flag) ==> WriteBit(mapFlags))
    ensures f < FAULT_F_ADDRESS
  {
    (if ReadBit(flag) && !ReadBit(mapFlags) then FAULT_F_READ else 0)
    + (if WriteBit(flag) && !WriteBit(mapFlags) then FAULT_F_WRITE else 0)
  }

  predicate Covers(r: ReservedRegion, addr: u64) {
    r.low <= addr <= r.high
  }

  /** The first reserved region, from index `from` on, that holds addr. */
  function FirstReserved(regions: seq<ReservedRegion>, addr: u64, from: nat): (r: Option<nat>)
    requires from <= |regions|
    ensures r.Some? ==> from <= r.value < |regions| && Covers(regions[r.value], addr)
    ensures r.Some? ==> forall j :: from <= j < r.value ==> !Covers(regions[j], addr)
    ensures r.None? <==> forall j :: from <= j < |regions| ==> !Covers(regions[j], addr)
    decreases |regions| - from
  {
    if from == |regions| then None
    else if Covers(regions[from], addr) then Some(from)
    else FirstReserved(regions, addr, from + 1)
  }

  /** The interval translate looks up: the single address. */
  function TranslateQuery(addr: u64): Interval {
    Interval(addr, addr)
  }

  /** The lookup of the single address finds exactly the mappings that
      hold it. */
  lemma TranslateQueryFindsHolder(m: map<Interval, Mapping>, addr: u64)
    ensures HasOverlap(m, TranslateQuery(addr)) <==> exists k :: k in m && Contains(k, addr)
  {
    forall k | k in m {
      PointOverlap(addr, k);
    }
  }

  /** A successful translation through a mapping lands at the same offset
      in the physical range, when that range does not wrap. */
  lemma TranslatedInTarget(k: Interval, v: Mapping, addr: u64)
    requires Contains(k, addr) && v.physAddr + (k.high - k.low) < U64_MODULUS
    ensures var t := Wrap64(addr - k.low + v.physAddr);
            && v.physAddr <= t <= v.physAddr + (k.high - k.low)
            && t - v.physAddr == addr - k.low
  {
  }

  /** virtio_iommu_translate, with the lookup on [addr, addr]:
      - an unknown endpoint is let through unchanged when bypass is
        allowed, and faults with UNKNOWN otherwise;
      - an address in a reserved region is let through when the first such
        region is an MSI doorbell, and faults with MAPPING otherwise;
      - an endpoint attached to no domain is let through when bypass is
        allowed, and faults with DOMAIN otherwise;
      - an address no mapping holds faults with MAPPING;
      - an access the mapping does not allow faults with MAPPING and the
        permission flags plus ADDRESS;
      - otherwise the address moves by the mapping's offset, with the
        permission asked for.
      A fault leaves the entry untranslated and without permission. */
  method Translate(s: IommuState, sid: u32, addr: u64, flag: AccessFlags, bypassAllowed: bool)
    returns (entry: TlbEntry, fault: Option<Fault>)
    requires s.Valid()
    ensures fault.Some? ==> entry == Untranslated(addr)
    ensures entry.iova == addr
    ensures sid !in s.endpoints ==>
              if bypassAllowed then entry == TlbEntry(addr, addr, flag) && fault == None
              else fault == Some(Fault(FAULT_R_UNKNOWN, 0, sid, 0))
    ensures sid in s.endpoints && FirstReserved(s.reservedRegions, addr, 0).Some? ==>
              if s.reservedRegions[FirstReserved(s.reservedRegions, addr, 0).value].kind == RESV_MEM_T_MSI
              then entry == TlbEntry(addr, addr, flag) && fault == None
              else fault == Some(Fault(FAULT_R_MAPPING, 0, sid, addr))
    ensures sid in s.endpoints && FirstReserved(s.reservedRegions, addr, 0).None? && s.endpoints[sid].None? ==>
              if bypassAllowed then entry == TlbEntry(addr, addr, flag) && fault == None
              else fault == Some(Fault(FAULT_R_DOMAIN, 0, sid, 0))
    ensures sid in s.endpoints && FirstReserved(s.reservedRegions, addr, 0).None? && s.endpoints[sid].Some? ==>
              var m := s.domains[s.endpoints[sid].value].mappings;
              && ((forall k :: k in m ==> !Contains(k, addr)) ==> fault == Some(Fault(FAULT_R_MAPPING, 0, sid, addr)))
              && (forall k :: k in m && Contains(k, addr) ==>
                    var f := PermissionFault(flag, m[k].flags);
                    if f != 0 then fault == Some(Fault(FAULT_R_MAPPING, f + FAULT_F_ADDRESS, sid, addr))
                    else fault == None && entry == TlbEntry(addr, Wrap64(addr - k.low + m[k].physAddr), flag))
  {
    entry := Untranslated(addr);
    fault := None;
    if sid !in s.endpoints {
      if !bypassAllowed {
        fault := Some(Fault(FAULT_R_UNKNOWN, 0, sid, 0));
      } else {
        entry := entry.(perm := flag);
      }
      return;
    }
    var regions := s.reservedRegions;
    var i := 0;
    while i < |regions|
      invariant 0 <= i <= |regions|
      invariant FirstReserved(regions, addr, 0) == FirstReserved(regions, addr, i)
    {
      if addr >= regions[i].low && addr <= regions[i].high {
        if regions[i].kind == RESV_MEM_T_MSI {
          entry := entry.(perm := flag);
        } else {
          fault := Some(Fault(FAULT_R_MAPPING, 0, sid, addr));
        }
        return;
      }
      i := i + 1;
    }
    if s.endpoints[sid].None? {
      if !bypassAllowed {
        fault := Some(Fault(FAULT_R_DOMAIN, 0, sid, 0));
      } else {
        entry := entry.(perm := flag);
      }
      return;
    }
    var m := s.domains[s.endpoints[sid].value].mappings;
    var q := TranslateQuery(addr);
    TranslateQueryFindsHolder(m, addr);
    if !HasOverlap(m, q) {
      fault := Some(Fault(FAULT_R_MAPPING, 0, sid, addr));
      return;
    }
    var key :| key in m && Overlap(key, q);
    PointOverlap(addr, key);
    forall k | k in m && Contains(k, addr) ensures k == key {
      PointInOneKey(m, addr, k, key);
    }
    var value := m[key];
    var flags := PermissionFault(flag, value.flags);
    if flags != 0 {
      fault := Some(Fault(FAULT_R_MAPPING, flags + FAULT_F_ADDRESS, sid, addr));
      return;
    }
    entry := entry.(translatedAddr := Wrap64(addr - key.low + value.physAddr), perm := flag);
  }

  // ---------------------------------------------------------------------
  // virtio_iommu_translate as written: the lookup on [addr, addr + 1]
  // ---------------------------------------------------------------------

  /** The interval the source looks up, with uint64_t wrap-around. */
  function TranslateQueryAsWritten(addr: u64): Interval {
    Interval(addr, Wrap64(addr + 1))
  }

  /** With a single mapping [0x1000, 0x1fff] to 0x8000, the lookup as
      written for address 0xfff finds that mapping, although it does not
      hold the address, and would translate it to 0x7fff with the
      permission asked for; the lookup on [addr, addr] finds nothing and
      faults. */
  lemma AddrPlusOneHitsNextMapping()
    ensures var k := Interval(0x1000, 0x1fff);
            var m := map[k := Mapping(0x8000, 3)];
            && Overlap(k, TranslateQueryAsWritten(0xfff))
            && !Contains(k, 0xfff)
            && Wrap64(0xfff - k.low + m[k].physAddr) == 0x7fff
            && !HasOverlap(m, TranslateQuery(0xfff))
  {
    var k := Interval(0x1000, 0x1fff);
    var m := map[k := Mapping(0x8000, 3)];
    TranslateQueryFindsHolder(m, 0xfff);
  }
}
