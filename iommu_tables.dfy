/**
 * The translation tables of hw/virtio/virtio-iommu.c: the endpoint tree
 * (endpoint id to the domain it is attached to), the domain tree (domain
 * id to its interval-keyed mapping tree and its list of endpoints), the
 * reserved regions and the list of notifier nodes, with the requests that
 * change them.
 *
 * A tree that the source keys with int_cmp is a map here (IntCmp is a
 * total order consistent with equality); a mapping tree keyed with
 * interval_cmp is a map whose keys stay disjoint, and a lookup through
 * interval_cmp finds some key overlapping the query whenever there is one.
 * An endpoint's `domain` pointer is the id of its domain.
 */
module IommuTables {
  import opened Wrappers
  import opened IommuTypes

  /** A reserved region of the device's configuration: addresses in
      [low, high] are either reserved or an MSI doorbell. */
  datatype ReservedRegion = ReservedRegion(low: u64, high: u64, kind: u32)

  const RESV_MEM_T_RESERVED: u32 := 0
  const RESV_MEM_T_MSI: u32 := 1

  /** viommu_domain: its mapping tree and the endpoints attached to it,
      most recently attached first. */
  datatype Domain = Domain(mappings: map<Interval, Mapping>, endpointList: seq<u32>)

  const EMPTY_DOMAIN := Domain(map[], [])

  /** IOMMU_NOTIFIER_NONE: a memory region with no notifier. */
  const NOTIFIER_NONE: nat := 0

  predicate NoDuplicates<T(==)>(s: seq<T>) {
    forall i, j :: 0 <= i < j < |s| ==> s[i] != s[j]
  }

  /** QLIST_REMOVE of the first node holding x; the list is unchanged when
      no node does. */
  function RemoveFirst<T(==)>(s: seq<T>, x: T): (r: seq<T>)
    ensures x !in s ==> r == s
    ensures x in s ==> |r| == |s| - 1
  {
    if s == [] then []
    else if s[0] == x then s[1..]
    else [s[0]] + RemoveFirst(s[1..], x)
  }

  /** RemoveFirst takes away exactly one occurrence of x, when there is
      one, and keeps everything else. */
  lemma {:induction false} RemoveFirstMultiset<T>(s: seq<T>, x: T)
    ensures multiset(RemoveFirst(s, x)) == multiset(s) - multiset{x}
  {
    if s != [] {
      assert s == [s[0]] + s[1..];
      if s[0] != x {
        RemoveFirstMultiset(s[1..], x);
      }
    }
  }

  /** Removing the node at index i, when no earlier node holds the same
      value, is RemoveFirst. */
  lemma {:induction false} RemoveFirstAt<T>(s: seq<T>, i: nat)
    requires i < |s| && s[i] !in s[..i]
    ensures RemoveFirst(s, s[i]) == s[..i] + s[i + 1..]
    decreases i
  {
    if i > 0 {
      assert s[1..][i - 1] == s[i];
      assert s[1..][..i - 1] == s[1..i];
      assert s[i] !in s[1..][..i - 1];
      RemoveFirstAt(s[1..], i - 1);
      assert s[1..][i - 1 + 1..] == s[i + 1..];
      assert s[..i] == [s[0]] + s[1..i];
    }
  }

  /** On a list without duplicates, RemoveFirst removes x and keeps every
      other element. */
  lemma {:induction false} RemoveFirstNoDuplicates<T>(s: seq<T>, x: T)
    requires NoDuplicates(s)
    ensures NoDuplicates(RemoveFirst(s, x))
    ensures forall y :: y in RemoveFirst(s, x) <==> y in s && y != x
  {
    if s != [] && s[0] != x {
      assert NoDuplicates(s[1..]) by {
        forall i, j | 0 <= i < j < |s[1..]| ensures s[1..][i] != s[1..][j] {
          assert s[1..][i] == s[i + 1] && s[1..][j] == s[j + 1];
        }
      }
      RemoveFirstNoDuplicates(s[1..], x);
      assert s[0] !in s[1..] by {
        forall k | 0 <= k < |s[1..]| ensures s[1..][k] != s[0] {
          assert s[1..][k] == s[k + 1];
        }
      }
      var r := RemoveFirst(s, x);
      assert r == [s[0]] + RemoveFirst(s[1..], x);
      forall i, j | 0 <= i < j < |r| ensures r[i] != r[j] {
        if i == 0 {
          assert r[j] in RemoveFirst(s[1..], x);
        } else {
          assert r[i] == RemoveFirst(s[1..], x)[i - 1] && r[j] == RemoveFirst(s[1..], x)[j - 1];
        }
      }
      assert s == [s[0]] + s[1..];
    } else if s != [] {
      assert s == [s[0]] + s[1..];
      forall i, j | 0 <= i < j < |s[1..]| ensures s[1..][i] != s[1..][j] {
        assert s[1..][i] == s[i + 1] && s[1..][j] == s[j + 1];
      }
      forall k | 0 <= k < |s[1..]| ensures s[1..][k] != x {
        assert s[1..][k] == s[k + 1];
      }
    }
  }

  /** The tables agree: every mapping tree is disjoint, an endpoint with
      a domain is on that domain's list, and every endpoint on a list
      points back at that domain (so it is on no other list). */
  ghost predicate TablesValid(eps: map<u32, Option<u32>>, doms: map<u32, Domain>) {
    && (forall d :: d in doms ==> Disjoint(doms[d].mappings) && NoDuplicates(doms[d].endpointList))
    && (forall e :: e in eps && eps[e].Some? ==> eps[e].value in doms && e in doms[eps[e].value].endpointList)
    && (forall d, i :: d in doms && 0 <= i < |doms[d].endpointList| ==>
          doms[d].endpointList[i] in eps && eps[doms[d].endpointList[i]] == Some(d))
  }

  /** An endpoint on a domain's list points at that domain. */
  lemma OnListPointsBack(eps: map<u32, Option<u32>>, doms: map<u32, Domain>, d: u32, e: u32)
    requires TablesValid(eps, doms) && d in doms && e in doms[d].endpointList
    ensures e in eps && eps[e] == Some(d)
  {
    var i :| 0 <= i < |doms[d].endpointList| && doms[d].endpointList[i] == e;
  }

  /** An unattached endpoint is on no list. */
  lemma UnattachedOnNoList(eps: map<u32, Option<u32>>, doms: map<u32, Domain>, e: u32)
    requires TablesValid(eps, doms) && (e !in eps || eps[e].None?)
    ensures forall d :: d in doms ==> e !in doms[d].endpointList
  {
    forall d | d in doms ensures e !in doms[d].endpointList {
      if e in doms[d].endpointList {
        OnListPointsBack(eps, doms, d, e);
      }
    }
  }

  /** Unlinking an attached endpoint keeps the tables in agreement. */
  lemma DetachKeepsValid(eps: map<u32, Option<u32>>, doms: map<u32, Domain>, e: u32)
    requires TablesValid(eps, doms) && e in eps && eps[e].Some?
    ensures var d := eps[e].value;
            TablesValid(eps[e := None], doms[d := doms[d].(endpointList := RemoveFirst(doms[d].endpointList, e))])
  {
    var d := eps[e].value;
    RemoveFirstNoDuplicates(doms[d].endpointList, e);
    var eps2 := eps[e := None];
    var doms2 := doms[d := doms[d].(endpointList := RemoveFirst(doms[d].endpointList, e))];
    forall d2, i | d2 in doms2 && 0 <= i < |doms2[d2].endpointList|
      ensures doms2[d2].endpointList[i] in eps2 && eps2[doms2[d2].endpointList[i]] == Some(d2)
    {
      var x := doms2[d2].endpointList[i];
      assert x in doms2[d2].endpointList;
      OnListPointsBack(eps, doms, d2, x);
    }
  }

  /** Linking an unattached endpoint at the head of a domain's list keeps
      the tables in agreement. */
  lemma AttachKeepsValid(eps: map<u32, Option<u32>>, doms: map<u32, Domain>, e: u32, d: u32)
    requires TablesValid(eps, doms) && e in eps && eps[e].None? && d in doms
    ensures TablesValid(eps[e := Some(d)], doms[d := doms[d].(endpointList := [e] + doms[d].endpointList)])
  {
    UnattachedOnNoList(eps, doms, e);
    var eps2 := eps[e := Some(d)];
    var doms2 := doms[d := doms[d].(endpointList := [e] + doms[d].endpointList)];
    forall d2, i | d2 in doms2 && 0 <= i < |doms2[d2].endpointList|
      ensures doms2[d2].endpointList[i] in eps2 && eps2[doms2[d2].endpointList[i]] == Some(d2)
    {
      if !(d2 == d && i == 0) {
        var x := doms2[d2].endpointList[i];
        assert x in doms[d2].endpointList by {
          if d2 == d {
            assert x == doms[d].endpointList[i - 1];
          }
        }
        OnListPointsBack(eps, doms, d2, x);
      }
    }
    forall e2 | e2 in eps2 && eps2[e2].Some?
      ensures eps2[e2].value in doms2 && e2 in doms2[eps2[e2].value].endpointList
    {
      if e2 != e && eps[e2].value == d {
        assert e2 in doms[d].endpointList;
        var j :| 0 <= j < |doms[d].endpointList| && doms[d].endpointList[j] == e2;
        assert doms2[d].endpointList[j + 1] == e2;
      }
    }
    assert NoDuplicates(doms2[d].endpointList) by {
      var l := doms2[d].endpointList;
      forall i, j | 0 <= i < j < |l| ensures l[i] != l[j] {
        if i == 0 {
          assert l[j] == doms[d].endpointList[j - 1];
        } else {
          assert l[i] == doms[d].endpointList[i - 1] && l[j] == doms[d].endpointList[j - 1];
        }
      }
    }
  }

  /** A domain nobody is attached to can leave the tree. */
  lemma DropDomainKeepsValid(eps: map<u32, Option<u32>>, doms: map<u32, Domain>, d: u32)
    requires TablesValid(eps, doms) && d in doms && doms[d].endpointList == []
    ensures TablesValid(eps, doms - {d})
    ensures forall e :: e in eps ==> eps[e] != Some(d)
  {
  }

  /** Removing e from a list other than that of its own domain changes
      nothing: e is on no other list. */
  lemma UnlinkElsewhere(eps: map<u32, Option<u32>>, doms: map<u32, Domain>, e: u32)
    requires TablesValid(eps, doms) && e in eps
    ensures forall d :: d in doms && eps[e] != Some(d) ==>
              RemoveFirst(doms[d].endpointList, e) == doms[d].endpointList
  {
    forall d | d in doms && eps[e] != Some(d)
      ensures RemoveFirst(doms[d].endpointList, e) == doms[d].endpointList
    {
      if e in doms[d].endpointList {
        OnListPointsBack(eps, doms, d, e);
      }
    }
  }

  /** The domain tree once e has left the list of its domain, if any. */
  function Detached(eps: map<u32, Option<u32>>, doms: map<u32, Domain>, e: u32): map<u32, Domain> {
    if e in eps && eps[e].Some? && eps[e].value in doms then
      var d := eps[e].value;
      doms[d := doms[d].(endpointList := RemoveFirst(doms[d].endpointList, e))]
    else doms
  }

  /** The domain tree once e is at the head of the list of domain d, which
      is created empty when absent. */
  function Linked(doms: map<u32, Domain>, d: u32, e: u32): map<u32, Domain> {
    var dom := if d in doms then doms[d] else EMPTY_DOMAIN;
    doms[d := dom.(endpointList := [e] + dom.endpointList)]
  }

  /** Attaching leaves the endpoint at the head of the list of d, which
      exists afterwards; every other list loses only the endpoint, and no
      mapping tree changes. */
  lemma AttachShape(eps: map<u32, Option<u32>>, doms: map<u32, Domain>, e: u32, d: u32)
    requires TablesValid(eps, doms)
    ensures var r := Linked(Detached(eps, doms, e), d, e);
            && r.Keys == doms.Keys + {d}
            && r[d].endpointList[0] == e
            && (forall d2 :: d2 in doms ==> r[d2].mappings == doms[d2].mappings)
            && (forall d2 :: d2 in doms && d2 != d ==> r[d2].endpointList == RemoveFirst(doms[d2].endpointList, e))
  {
  }

  /** After attaching, the endpoint is on no list but that of d. */
  lemma AttachOnNoOtherList(eps: map<u32, Option<u32>>, doms: map<u32, Domain>, e: u32, d: u32)
    requires TablesValid(eps, doms)
    ensures var r := Linked(Detached(eps, doms, e), d, e);
            forall d2 :: d2 in r && d2 != d ==> e !in r[d2].endpointList
  {
    var r := Linked(Detached(eps, doms, e), d, e);
    if e in eps {
      UnlinkElsewhere(eps, doms, e);
    } else {
      UnattachedOnNoList(eps[e := None], doms, e) by {
        NewEndpointKeepsValid(eps, doms, e);
      }
    }
    forall d2 | d2 in r && d2 != d ensures e !in r[d2].endpointList {
      if e in eps && eps[e] == Some(d2) {
        RemoveFirstNoDuplicates(doms[d2].endpointList, e);
      }
    }
  }

  /** A new endpoint starts unattached. */
  lemma NewEndpointKeepsValid(eps: map<u32, Option<u32>>, doms: map<u32, Domain>, e: u32)
    requires TablesValid(eps, doms) && e !in eps
    ensures TablesValid(eps[e := None], doms)
  {
    forall d, i | d in doms && 0 <= i < |doms[d].endpointList|
      ensures doms[d].endpointList[i] != e
    {
    }
  }

  /** A new domain starts with no mappings and no endpoints. */
  lemma NewDomainKeepsValid(eps: map<u32, Option<u32>>, doms: map<u32, Domain>, d: u32)
    requires TablesValid(eps, doms) && d !in doms
    ensures TablesValid(eps, doms[d := EMPTY_DOMAIN])
  {
  }

  // ---------------------------------------------------------------------
  // virtio_iommu_map as written: no check that virt_start <= virt_end
  // ---------------------------------------------------------------------

  /** The admission test of virtio_iommu_map as written: only the overlap
      lookup stands between a request and the insertion. */
  predicate MapAdmitsAsWritten(m: map<Interval, Mapping>, q: Interval) {
    !HasOverlap(m, q)
  }

  /** The admission test the corrected Map applies. */
  predicate MapAdmits(m: map<Interval, Mapping>, q: Interval) {
    WellFormed(q) && !HasOverlap(m, q)
  }

  /** g_tree_remove through interval_cmp: the binary search removes the
      node it reaches that compares equal to the key, or nothing when it
      reaches none.  Which node that is depends on the shape of the tree,
      so the outcome is stated as a relation: r is the tree without one
      node comparing equal to the key, or the tree itself when no node
      does. */
  ghost predicate RemovedAsWritten(m: map<Interval, Mapping>, key: Interval, r: map<Interval, Mapping>) {
    if exists k :: k in m && IntervalCmp(key, k) == 0
    then exists k :: k in m && IntervalCmp(key, k) == 0 && r == m - {k}
    else r == m
  }

  /** In a disjoint tree a well-formed key that is present is the node the
      search removes, and only it. */
  lemma RemovedAsWrittenExact(m: map<Interval, Mapping>, key: Interval, r: map<Interval, Mapping>)
    requires Disjoint(m) && WellFormed(key) && key in m && RemovedAsWritten(m, key, r)
    ensures r == m - {key}
  {
    IntervalCmpSelf(key);
    var k :| k in m && IntervalCmp(key, k) == 0 && r == m - {k};
    OnlySelfOverlaps(m, key, k);
  }

  /** An inverted key compares below itself, so the search never removes
      it: whatever else goes, the key stays in the tree. */
  lemma InvertedKeyStays(m: map<Interval, Mapping>, key: Interval, r: map<Interval, Mapping>)
    requires !WellFormed(key) && key in m && RemovedAsWritten(m, key, r)
    ensures key in r
  {
    IntervalCmpSelf(key);
  }

  /** Every key the corrected Map admits keeps the tree disjoint, so removal
      through the comparator gives back the tree before the insertion. */
  lemma MapAdmitsKeepsRemovable(m: map<Interval, Mapping>, q: Interval, v: Mapping, r: map<Interval, Mapping>)
    requires Disjoint(m) && MapAdmits(m, q)
    requires RemovedAsWritten(m[q := v], q, r)
    ensures Disjoint(m[q := v])
    ensures r == m
  {
    if q in m {
      assert Overlap(q, q);
    }
    InsertKeepsDisjoint(m, q, v);
    RemovedAsWrittenExact(m[q := v], q, r);
    assert m[q := v] - {q} == m;
  }

  /** Map as written accepts [10, 5] into an empty domain.  A later unmap of
      [0, 20] finds it (it lies within the range), but g_tree_remove never
      finds an inverted key, since it compares below itself: the loop body
      leaves the tree as it was and the loop condition still holds, so the
      unmap request never returns. */
  lemma InvertedMappingHangsUnmap(r: map<Interval, Mapping>)
    requires RemovedAsWritten(map[Interval(10, 5) := Mapping(0x8000, 3)], Interval(10, 5), r)
    ensures var k, q := Interval(10, 5), Interval(0, 20);
            var m := map[k := Mapping(0x8000, 3)];
            && MapAdmitsAsWritten(map[], k)
            && !MapAdmits(map[], k)
            && HasOverlap(m, q)
            && (forall key :: key in m && Overlap(key, q) ==> Within(key, q))
            && r == m
  {
    var k, q := Interval(10, 5), Interval(0, 20);
    var m := map[k := Mapping(0x8000, 3)];
    assert Overlap(k, q);
    InvertedKeyStays(m, k, r);
    assert r.Keys <= m.Keys;
    assert r == m;
  }

  class IommuState {
    var endpoints: map<u32, Option<u32>>
    var domains: map<u32, Domain>
    var notifiers: seq<nat>
    const reservedRegions: seq<ReservedRegion>

    /** realize: empty trees and notifier list; the reserved regions come
        from the device's properties. */
    constructor (regions: seq<ReservedRegion>)
      ensures endpoints == map[] && domains == map[] && notifiers == []
      ensures reservedRegions == regions
      ensures Valid()
    {
      endpoints := map[];
      domains := map[];
      notifiers := [];
      reservedRegions := regions;
    }

    /** The tables agree (see TablesValid). */
    ghost predicate Valid()
      reads this
    {
      TablesValid(endpoints, domains)
    }

    /** virtio_iommu_get_endpoint: the endpoint, created unattached when
        absent. */
    method GetEndpoint(epId: u32)
      requires Valid()
      modifies this`endpoints
      ensures Valid()
      ensures epId in old(endpoints) ==> endpoints == old(endpoints)
      ensures epId !in old(endpoints) ==> endpoints == old(endpoints)[epId := None]
    {
      if epId in endpoints {
        return;
      }
      NewEndpointKeepsValid(endpoints, domains, epId);
      endpoints := endpoints[epId := None];
    }

    /** virtio_iommu_get_domain: the domain, created without mappings or
        endpoints when absent. */
    method GetDomain(domainId: u32)
      requires Valid()
      modifies this`domains
      ensures Valid()
      ensures domainId in old(domains) ==> domains == old(domains)
      ensures domainId !in old(domains) ==> domains == old(domains)[domainId := EMPTY_DOMAIN]
    {
      if domainId in domains {
        return;
      }
      NewDomainKeepsValid(endpoints, domains, domainId);
      domains := domains[domainId := EMPTY_DOMAIN];
    }

    /** virtio_iommu_detach_endpoint_from_domain: unlinks the endpoint from
        its domain's list and clears its domain. */
    method DetachEndpointFromDomain(epId: u32)
      requires Valid() && epId in endpoints && endpoints[epId].Some?
      modifies this`endpoints, this`domains
      ensures Valid()
      ensures var d := old(endpoints[epId].value);
              domains == old(domains)[d := old(domains[d]).(endpointList := RemoveFirst(old(domains[d].endpointList), epId))]
      ensures endpoints == old(endpoints)[epId := None]
    {
      var d := endpoints[epId].value;
      var dom := domains[d];
      DetachKeepsValid(endpoints, domains, epId);
      domains := domains[d := dom.(endpointList := RemoveFirst(dom.endpointList, epId))];
      endpoints := endpoints[epId := None];
    }

    /** virtio_iommu_put_domain, the destructor of a domain tree entry:
        detaches every endpoint on the domain's list; the entry is then
        gone from the tree. */
    method PutDomain(domainId: u32)
      requires Valid() && domainId in domains
      modifies this`endpoints, this`domains
      ensures Valid()
      ensures domains == old(domains) - {domainId}
      ensures endpoints.Keys == old(endpoints).Keys
      ensures forall e :: e in endpoints ==>
                endpoints[e] == if old(endpoints[e]) == Some(domainId) then None else old(endpoints[e])
    {
      while domains[domainId].endpointList != []
        invariant Valid() && domainId in domains
        invariant domains.Keys == old(domains).Keys
        invariant forall d :: d in domains && d != domainId ==> domains[d] == old(domains[d])
        invariant endpoints.Keys == old(endpoints).Keys
        invariant forall e :: e in endpoints ==>
                    endpoints[e] == old(endpoints[e]) || (endpoints[e] == None && old(endpoints[e]) == Some(domainId))
        decreases |domains[domainId].endpointList|
      {
        var ep := domains[domainId].endpointList[0];
        OnListPointsBack(endpoints, domains, domainId, ep);
        DetachEndpointFromDomain(ep);
      }
      DropDomainKeepsValid(endpoints, domains, domainId);
      domains := domains - {domainId};
    }

    /** The first step of virtio_iommu_attach: an endpoint attached to a
        domain is detached from it. */
    method LeaveDomain(epId: u32)
      requires Valid() && epId in endpoints
      modifies this`endpoints, this`domains
      ensures Valid()
      ensures endpoints == old(endpoints)[epId := None]
      ensures domains == Detached(old(endpoints), old(domains), epId)
    {
      if endpoints[epId].Some? {
        DetachEndpointFromDomain(epId);
      }
    }

    /** virtio_iommu_attach: detaches the endpoint from any domain, then
        puts it at the head of the requested domain's list; either is
        created when absent. */
    method Attach(domainId: u32, epId: u32) returns (status: u8)
      requires Valid()
      modifies this`endpoints, this`domains
      ensures Valid() && status == S_OK
      ensures endpoints == old(endpoints)[epId := Some(domainId)]
      ensures domains == Linked(Detached(old(endpoints), old(domains), epId), domainId, epId)
    {
      GetEndpoint(epId);
      ghost var detached := Detached(endpoints, domains, epId);
      LeaveDomain(epId);
      assert domains == detached;
      GetDomain(domainId);
      var dom := domains[domainId];
      AttachKeepsValid(endpoints, domains, epId, domainId);
      domains := domains[domainId := dom.(endpointList := [epId] + dom.endpointList)];
      endpoints := endpoints[epId := Some(domainId)];
      status := S_OK;
    }

    /** virtio_iommu_detach: NOENT for an unknown endpoint, INVAL for one
        that is not attached; the requested domain id is not consulted. */
    method Detach(domainId: u32, epId: u32) returns (status: u8)
      requires Valid()
      modifies this`endpoints, this`domains
      ensures Valid()
      ensures epId !in old(endpoints) ==> status == S_NOENT && unchanged(this)
      ensures epId in old(endpoints) && old(endpoints[epId]).None? ==> status == S_INVAL && unchanged(this)
      ensures epId in old(endpoints) && old(endpoints[epId]).Some? ==>
                && status == S_OK
                && endpoints == old(endpoints)[epId := None]
                && var d := old(endpoints[epId].value);
                   domains == old(domains)[d := old(domains[d]).(endpointList := RemoveFirst(old(domains[d].endpointList), epId))]
    {
      if epId !in endpoints {
        return S_NOENT;
      }
      if endpoints[epId].None? {
        return S_INVAL;
      }
      DetachEndpointFromDomain(epId);
      return S_OK;
    }

    /** virtio_iommu_map, with the inverted range refused: NOENT for an
        unknown domain, INVAL when virt_start > virt_end or when the range
        overlaps a mapping of the domain; otherwise the one new entry. */
    method Map(domainId: u32, virtStart: u64, virtEnd: u64, physStart: u64, flags: u32) returns (status: u8)
      requires Valid()
      modifies this`domains
      ensures Valid()
      ensures domainId !in old(domains) ==> status == S_NOENT && domains == old(domains)
      ensures domainId in old(domains) && !MapAdmits(old(domains[domainId].mappings), Interval(virtStart, virtEnd)) ==>
                status == S_INVAL && domains == old(domains)
      ensures domainId in old(domains) && MapAdmits(old(domains[domainId].mappings), Interval(virtStart, virtEnd)) ==>
                && status == S_OK
                && domains == old(domains)[domainId := old(domains[domainId]).(mappings :=
                     old(domains[domainId].mappings)[Interval(virtStart, virtEnd) := Mapping(physStart, flags)])]
    {
      var interval := Interval(virtStart, virtEnd);
      if domainId !in domains {
        return S_NOENT;
      }
      var dom := domains[domainId];
      if virtStart > virtEnd {
        return S_INVAL;
      }
      if HasOverlap(dom.mappings, interval) {
        return S_INVAL;
      }
      InsertKeepsDisjoint(dom.mappings, interval, Mapping(physStart, flags));
      domains := domains[domainId := dom.(mappings := dom.mappings[interval := Mapping(physStart, flags)])];
      return S_OK;
    }

    /** virtio_iommu_remove_mapping: g_tree_remove through interval_cmp,
        which in a disjoint tree removes exactly the given key. */
    method RemoveMapping(domainId: u32, key: Interval)
      requires Valid() && domainId in domains && key in domains[domainId].mappings
      modifies this`domains
      ensures Valid()
      ensures domains == old(domains)[domainId := old(domains[domainId]).(mappings := old(domains[domainId].mappings) - {key})]
    {
      var dom := domains[domainId];
      var victim :| victim in dom.mappings && Overlap(victim, key);
      OnlySelfOverlaps(dom.mappings, key, victim);
      RemoveKeepsDisjoint(dom.mappings, victim);
      domains := domains[domainId := dom.(mappings := dom.mappings - {victim})];
    }

    /** virtio_iommu_unmap: NOENT for an unknown domain; otherwise removes
        mappings overlapping [virt_start, virt_end] one at a time while
        each lies within the range, and stops with RANGE at the first that
        would have to be split. */
    method Unmap(domainId: u32, virtStart: u64, virtEnd: u64) returns (status: u8)
      requires Valid()
      modifies this`domains
      ensures Valid()
      ensures domainId !in old(domains) ==> status == S_NOENT && domains == old(domains)
      ensures domainId in old(domains) ==>
                && (status == S_OK || status == S_RANGE)
                && domains.Keys == old(domains).Keys
                && (forall d :: d in domains && d != domainId ==> domains[d] == old(domains[d]))
                && domains[domainId].endpointList == old(domains[domainId].endpointList)
      ensures domainId in old(domains) ==>
                var q, before, after := Interval(virtStart, virtEnd), old(domains[domainId].mappings), domains[domainId].mappings;
                && (forall k :: k in after ==> k in before && after[k] == before[k])
                && (forall k :: k in before && k !in after ==> Within(k, q))
                && (forall k :: k in before && !Overlap(k, q) ==> k in after)
                && (status == S_OK ==> forall k :: k in before ==> (k in after <==> !Overlap(k, q)))
                && (status == S_RANGE ==> exists k :: k in after && Overlap(k, q) && !Within(k, q))
    {
      if domainId !in domains {
        return S_NOENT;
      }
      var q := Interval(virtStart, virtEnd);
      status := S_OK;
      while HasOverlap(domains[domainId].mappings, q)
        invariant Valid() && domainId in domains && status == S_OK
        invariant domains.Keys == old(domains).Keys
        invariant forall d :: d in domains && d != domainId ==> domains[d] == old(domains[d])
        invariant domains[domainId].endpointList == old(domains[domainId].endpointList)
        invariant forall k :: k in domains[domainId].mappings ==>
                    k in old(domains[domainId].mappings) && domains[domainId].mappings[k] == old(domains[domainId].mappings)[k]
        invariant forall k :: k in old(domains[domainId].mappings) && k !in domains[domainId].mappings ==> Within(k, q)
        decreases |domains[domainId].mappings|
      {
        var key :| key in domains[domainId].mappings && Overlap(key, q);
        if q.low <= key.low && q.high >= key.high {
          RemoveMapping(domainId, key);
        } else {
          status := S_RANGE;
          break;
        }
      }
    }

    /** virtio_iommu_notify_flag_changed: a region gaining a notifier gets
        a node at the head of the list; one losing it has its node removed;
        any other change leaves the list as it is. */
    method NotifyFlagChanged(dev: nat, oldFlag: nat, newFlag: nat)
      modifies this`notifiers
      ensures oldFlag == NOTIFIER_NONE ==> notifiers == [dev] + old(notifiers)
      ensures oldFlag != NOTIFIER_NONE && newFlag == NOTIFIER_NONE ==> notifiers == RemoveFirst(old(notifiers), dev)
      ensures oldFlag != NOTIFIER_NONE && newFlag != NOTIFIER_NONE ==> notifiers == old(notifiers)
    {
      if oldFlag == NOTIFIER_NONE {
        notifiers := [dev] + notifiers;
        return;
      }
      var i := 0;
      while i < |notifiers|
        invariant 0 <= i <= |notifiers| && notifiers == old(notifiers)
        invariant dev !in notifiers[..i]
      {
        if notifiers[i] == dev {
          if newFlag == NOTIFIER_NONE {
            RemoveFirstAt(notifiers, i);
            notifiers := notifiers[..i] + notifiers[i + 1..];
          }
          return;
        }
        assert notifiers[..i + 1] == notifiers[..i] + [notifiers[i]];
        i := i + 1;
      }
      assert notifiers[..i] == notifiers;
    }
  }
}
