/**
 * The PROBE request of hw/virtio/virtio-iommu.c: the device describes its
 * reserved regions to the driver as a list of RESV_MEM properties, ended
 * by a NONE property (section 5.13.6.8 of VIRTIO 1.2).
 *
 * A RESV_MEM property is 24 bytes: le16 type (1), le16 length (20, the
 * size after the header), u8 subtype, three reserved zero bytes, le64
 * start and le64 end.  The host is little-endian, so the source's
 * cpu_to_le conversions leave values as they are; storing the region's
 * type in the u8 subtype keeps its low byte.
 */
module IommuProbe {
  import opened Wrappers
  import opened IommuTypes
  import opened IommuTables

  const PROBE_T_NONE: nat := 0
  const PROBE_T_RESV_MEM: nat := 1

  /** sizeof(struct virtio_iommu_probe_property), the header. */
  const PROPERTY_HEAD_SIZE: nat := 4
  /** sizeof(struct virtio_iommu_probe_resv_mem). */
  const RESV_MEM_SIZE: nat := 24
  /** The length field: the size after the header. */
  const RESV_MEM_LENGTH: nat := 20

  /** VIOMMU_PROBE_SIZE: the bytes a PROBE request offers for properties. */
  const PROBE_SIZE: nat := 512

  const ENOSPC: int := 28

  function Pow256(n: nat): (p: nat)
    ensures p >= 1
  {
    if n == 0 then 1 else 256 * Pow256(n - 1)
  }

  /** The n low bytes of x, least significant first. */
  function LittleEndian(x: nat, n: nat): (b: seq<u8>)
    ensures |b| == n
  {
    if n == 0 then [] else [x % 256] + LittleEndian(x / 256, n - 1)
  }

  /** The number the bytes encode, least significant first. */
  function FromLittleEndian(b: seq<u8>): nat {
    if b == [] then 0 else b[0] + 256 * FromLittleEndian(b[1..])
  }

  /** Reading back n little-endian bytes gives the number, when it fits. */
  lemma {:induction false} LittleEndianRoundTrip(x: nat, n: nat)
    requires x < Pow256(n)
    ensures FromLittleEndian(LittleEndian(x, n)) == x
  {
    if n > 0 {
      var b := LittleEndian(x, n);
      assert b[1..] == LittleEndian(x / 256, n - 1);
      assert x / 256 < Pow256(n - 1);
      LittleEndianRoundTrip(x / 256, n - 1);
    }
  }

  /** What the driver reads from one RESV_MEM property. */
  datatype ResvMem = ResvMem(subtype: u8, start: nat, end: nat)

  /** The property fill_resv_mem_prop writes for a region. */
  function EncodeResvMem(r: ReservedRegion): (b: seq<u8>)
    ensures |b| == RESV_MEM_SIZE
  {
    LittleEndian(PROBE_T_RESV_MEM, 2) + LittleEndian(RESV_MEM_LENGTH, 2)
    + [r.kind % 256, 0, 0, 0]
    + LittleEndian(r.low, 8) + LittleEndian(r.high, 8)
  }

  /** What the driver learns about a region. */
  function Described(r: ReservedRegion): ResvMem {
    ResvMem(r.kind % 256, r.low, r.high)
  }

  /** All the properties, one after the other. */
  function EncodeResvMems(rs: seq<ReservedRegion>): (b: seq<u8>)
    ensures |b| == RESV_MEM_SIZE * |rs|
  {
    if rs == [] then [] else EncodeResvMem(rs[0]) + EncodeResvMems(rs[1..])
  }

  /** The property of region i sits at byte 24 i. */
  lemma {:induction false} EncodeResvMemsAt(rs: seq<ReservedRegion>, i: nat)
    requires i < |rs|
    ensures forall j :: 0 <= j < RESV_MEM_SIZE ==>
              EncodeResvMems(rs)[RESV_MEM_SIZE * i + j] == EncodeResvMem(rs[i])[j]
  {
    if i > 0 {
      EncodeResvMemsAt(rs[1..], i - 1);
      assert RESV_MEM_SIZE * i == RESV_MEM_SIZE + RESV_MEM_SIZE * (i - 1);
    }
  }

  /** How a driver walks the property list: RESV_MEM properties, each
      checked for its type and length, up to the NONE property.  None for
      a list that is cut short or holds anything else. */
  function ParseProperties(b: seq<u8>): (r: Option<seq<ResvMem>>)
    decreases |b|
  {
    if |b| < PROPERTY_HEAD_SIZE then None
    else
      var kind := FromLittleEndian(b[0..2]);
      var length := FromLittleEndian(b[2..4]);
      if kind == PROBE_T_NONE then Some([])
      else if kind == PROBE_T_RESV_MEM && length == RESV_MEM_LENGTH && |b| >= RESV_MEM_SIZE then
        var p := ResvMem(b[4], FromLittleEndian(b[8..16]), FromLittleEndian(b[16..24]));
        match ParseProperties(b[RESV_MEM_SIZE..])
        case None => None
        case Some(ps) => Some([p] + ps)
      else None
  }

  /** The regions described, in order. */
  function DescribedAll(rs: seq<ReservedRegion>): (ds: seq<ResvMem>)
    ensures |ds| == |rs|
    ensures forall i :: 0 <= i < |rs| ==> ds[i] == Described(rs[i])
  {
    if rs == [] then [] else [Described(rs[0])] + DescribedAll(rs[1..])
  }

  /** The NONE property that ends the list. */
  const NONE_PROPERTY: seq<u8> := [0, 0, 0, 0]

  /** Decoding one property gives back the region's subtype, start and
      end. */
  lemma ResvMemRoundTrip(r: ReservedRegion, rest: seq<u8>)
    ensures var b := EncodeResvMem(r) + rest;
            && FromLittleEndian(b[0..2]) == PROBE_T_RESV_MEM
            && FromLittleEndian(b[2..4]) == RESV_MEM_LENGTH
            && b[4] == r.kind % 256
            && FromLittleEndian(b[8..16]) == r.low
            && FromLittleEndian(b[16..24]) == r.high
            && b[RESV_MEM_SIZE..] == rest
  {
    var b := EncodeResvMem(r) + rest;
    assert b[0..2] == LittleEndian(PROBE_T_RESV_MEM, 2);
    assert b[2..4] == LittleEndian(RESV_MEM_LENGTH, 2);
    assert b[8..16] == LittleEndian(r.low, 8);
    assert b[16..24] == LittleEndian(r.high, 8);
    LittleEndianRoundTrip(PROBE_T_RESV_MEM, 2);
    LittleEndianRoundTrip(RESV_MEM_LENGTH, 2);
    assert Pow256(8) == U64_MODULUS;
    LittleEndianRoundTrip(r.low, 8);
    LittleEndianRoundTrip(r.high, 8);
  }

  /** The buffer a PROBE answer fills a driver decodes to the reserved
      regions, in order. */
  lemma {:induction false} ProbeRoundTrip(rs: seq<ReservedRegion>)
    ensures ParseProperties(EncodeResvMems(rs) + NONE_PROPERTY) == Some(DescribedAll(rs))
  {
    if rs == [] {
      assert EncodeResvMems(rs) + NONE_PROPERTY == NONE_PROPERTY;
      assert NONE_PROPERTY[0..2] == [0, 0];
    } else {
      var rest := EncodeResvMems(rs[1..]) + NONE_PROPERTY;
      assert EncodeResvMems(rs) + NONE_PROPERTY == EncodeResvMem(rs[0]) + rest;
      ResvMemRoundTrip(rs[0], rest);
      ProbeRoundTrip(rs[1..]);
    }
  }

  /** virtio_iommu_fill_resv_mem_prop: -ENOSPC, with the buffer untouched,
      when the properties of all regions do not fit in `free` bytes;
      otherwise they are written at the start of the buffer and their
      total size is returned. */
  method FillResvMemProp(regions: seq<ReservedRegion>, buf: array<u8>, free: nat) returns (r: int)
    requires free <= buf.Length
    modifies buf
    ensures RESV_MEM_SIZE * |regions| > free ==> r == -ENOSPC && buf[..] == old(buf[..])
    ensures RESV_MEM_SIZE * |regions| <= free ==>
              && r == RESV_MEM_SIZE * |regions|
              && buf[..r] == EncodeResvMems(regions)
              && buf[r..] == old(buf[r..])
  {
    var total := RESV_MEM_SIZE * |regions|;
    if total > free {
      return -ENOSPC;
    }
    ghost var enc := EncodeResvMems(regions);
    ghost var orig := buf[..];
    var i := 0;
    while i < |regions|
      invariant 0 <= i <= |regions|
      invariant forall k :: 0 <= k < RESV_MEM_SIZE * i ==> buf[k] == enc[k]
      invariant forall k :: RESV_MEM_SIZE * i <= k < buf.Length ==> buf[k] == orig[k]
    {
      var prop := EncodeResvMem(regions[i]);
      EncodeResvMemsAt(regions, i);
      var base := RESV_MEM_SIZE * i;
      assert base + RESV_MEM_SIZE <= total by {
        assert RESV_MEM_SIZE * (i + 1) <= RESV_MEM_SIZE * |regions|;
      }
      var j := 0;
      while j < RESV_MEM_SIZE
        invariant 0 <= j <= RESV_MEM_SIZE
        invariant forall k :: 0 <= k < base + j ==> buf[k] == enc[k]
        invariant forall k :: base + j <= k < buf.Length ==> buf[k] == orig[k]
      {
        buf[base + j] := prop[j];
        j := j + 1;
      }
      i := i + 1;
    }
    assert buf[..total] == enc;
    assert buf[total..] == orig[total..];
    return total;
  }

  /** virtio_iommu_probe: the reserved-region properties, then a NONE
      property, in the request's PROBE_SIZE bytes; INVAL, with the buffer
      untouched, when the properties and the NONE property do not fit. */
  method Probe(regions: seq<ReservedRegion>, buf: array<u8>) returns (status: u8)
    requires buf.Length >= PROBE_SIZE
    modifies buf
    ensures RESV_MEM_SIZE * |regions| > PROBE_SIZE - PROPERTY_HEAD_SIZE ==>
              status == S_INVAL && buf[..] == old(buf[..])
    ensures RESV_MEM_SIZE * |regions| <= PROBE_SIZE - PROPERTY_HEAD_SIZE ==>
              && status == S_OK
              && buf[..RESV_MEM_SIZE * |regions| + PROPERTY_HEAD_SIZE] == EncodeResvMems(regions) + NONE_PROPERTY
              && buf[RESV_MEM_SIZE * |regions| + PROPERTY_HEAD_SIZE..] == old(buf[RESV_MEM_SIZE * |regions| + PROPERTY_HEAD_SIZE..])
  {
    var free := PROBE_SIZE - PROPERTY_HEAD_SIZE;
    var count := FillResvMemProp(regions, buf, free);
    if count < 0 {
      return S_INVAL;
    }
    ghost var filled := buf[..];
    var j := 0;
    while j < PROPERTY_HEAD_SIZE
      invariant 0 <= j <= PROPERTY_HEAD_SIZE
      invariant forall k :: 0 <= k < count ==> buf[k] == filled[k]
      invariant forall k :: count <= k < count + j ==> buf[k] == 0
      invariant forall k :: count + j <= k < buf.Length ==> buf[k] == filled[k]
    {
      buf[count + j] := 0;
      j := j + 1;
    }
    assert buf[..count] == filled[..count];
    assert buf[..count + PROPERTY_HEAD_SIZE] == buf[..count] + NONE_PROPERTY;
    assert buf[count + PROPERTY_HEAD_SIZE..] == filled[count + PROPERTY_HEAD_SIZE..];
    return S_OK;
  }
}
