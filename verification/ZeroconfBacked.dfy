/** The converse of the agreement between entries and cached addresses: an entry's address is a cached one. Exactly one
    step can break it, an SRV record that returns to an address that is no longer cached. */
module ZeroconfBacked {
  import opened Options
  import opened WireNames
  import opened WireParse
  import opened ZeroconfCache
  import opened ZeroconfTokens
  import opened ZeroconfSteps

  /** The address of an entry with an SRV record is the cached one of its host. */
  predicate Backed(e: Entry, a: seq<Address>) {
    e.inUse && e.hasSrv && e.hasIpv4 ==>
      var k := FindAddress(a, e.host);
      k < |a| && a[k].ipv4 == e.ipv4 && a[k].expires == e.aExpires
  }

  predicate AllBacked(s: Search) {
    forall i :: 0 <= i < |s.discovered| ==> Backed(s.discovered[i], s.addresses)
  }

  // ---------- Steps that leave host and address alone ----------

  /** No SRV record, host or address is gained. */
  predicate NothingGained(e: Entry, f: Entry) {
    f.inUse && f.hasSrv && f.hasIpv4 ==>
      e.inUse && e.hasSrv && e.hasIpv4 && f.host == e.host && f.ipv4 == e.ipv4 && f.aExpires == e.aExpires
  }

  lemma StillBacked(e: Entry, f: Entry, a: seq<Address>)
    requires Backed(e, a) && NothingGained(e, f)
    ensures Backed(f, a)
  {
    hide FindAddress;
  }

  lemma StoreBacked(s: Search, i: nat, e: Entry)
    requires AllBacked(s) && i < |s.discovered| && Backed(e, s.addresses)
    ensures AllBacked(WithEntry(s, i, e))
  {
    hide Backed;
  }

  lemma AllocationBacked(c: Cache, fqdn: seq<byte>)
    requires AllBacked(c.search)
    ensures AllBacked(AllocateEntry(c, fqdn).0.search)
    ensures AllocateEntry(c, fqdn).0.search.addresses == c.search.addresses
  {
    hide AllBacked, NameMatches, InstanceName, WithEntry;
    var free := FreeEntry(c.search.discovered);
    if free < |c.search.discovered| {
      EmptyBacked(c, fqdn);
      StoreBacked(c.search, free, EMPTY_ENTRY);
      match InstanceName(c.search.serviceFqdn, fqdn)
      case None =>
      case Some(name) =>
        StoreBacked(c.search, free,
                    EMPTY_ENTRY.(inUse := true, token := Some(c.nextToken), fqdn := fqdn, name := name));
    }
    StoreSame(c.search);
  }

  lemma EmptyBacked(c: Cache, fqdn: seq<byte>)
    ensures Backed(EMPTY_ENTRY, c.search.addresses)
    ensures forall token, name :: Backed(EMPTY_ENTRY.(inUse := true, token := token, fqdn := fqdn, name := name),
                                         c.search.addresses)
  {
  }

  lemma StoreSame(s: Search)
    ensures forall i, e :: 0 <= i < |s.discovered| ==> WithEntry(s, i, e).addresses == s.addresses
  {
  }

  lemma PtrBacked(c: Cache, r: Record, now: u64)
    requires AllBacked(c.search)
    ensures AllBacked(StepPtr(c, r, now).search)
  {
    hide AllBacked, NameMatches, AllocateEntry, WithEntry, Expiry, FindEntry;
    if r.data.Ptr? && InClass(r) && NameMatches(r.owner, c.search.serviceFqdn) {
      if r.ttl == 0 {
        var i := FindEntry(c.search.discovered, r.data.target);
        if i < |c.search.discovered| {
          var e := c.search.discovered[i];
          OneBacked(c.search, i, e.(changes := e.changes + 1, hasPtr := false, ptrExpires := 0, remove := true));
        }
      } else {
        AllocationBacked(c, r.data.target);
        var (c', j) := AllocateEntry(c, r.data.target);
        if j < |c'.search.discovered| {
          var e := c'.search.discovered[j];
          OneBacked(c'.search, j, e.(changes := e.changes + 1, hasPtr := true, ptrExpires := Expiry(now, r.ttl),
                                     remove := false));
        }
      }
    }
  }

  lemma OneBacked(s: Search, i: nat, f: Entry)
    requires AllBacked(s) && i < |s.discovered| && NothingGained(s.discovered[i], f)
    ensures AllBacked(WithEntry(s, i, f))
  {
    hide Backed;
    StillBacked(s.discovered[i], f, s.addresses);
    StoreBacked(s, i, f);
  }

  lemma ServiceNothingGained(e: Entry, srv: bool, txt: seq<seq<byte>>, expires: u64)
    ensures NothingGained(e, ServiceWithdrawn(e, srv)) && NothingGained(e, TxtAnnounced(e, txt, expires))
  {
  }

  // ---------- SRV announcements ----------

  /** What an announced SRV record does not break: the entry held one, or brings no address to its host, or the address
      it brings is replaced by the cached one or equals it. */
  predicate Covered(e: Entry, a: seq<Address>, target: seq<byte>, now: u64) {
    var k := FindAddress(a, target);
    || e.hasSrv || !e.hasIpv4 || HostChanged(e, target)
    || (k < |a| && (CachedAddress(a, target, now).Some? || (a[k].ipv4 == e.ipv4 && a[k].expires == e.aExpires)))
  }

  /** A backed entry stays backed by an SRV announcement exactly if it is covered. */
  lemma SrvBackedExact(s: Search, e: Entry, port: u16, target: seq<byte>, now: u64, ttl: u32)
    requires e.inUse && EntrySane(e) && Backed(e, s.addresses)
    ensures Backed(SrvApplied(s, e, port, target, now, ttl), s.addresses) <==> Covered(e, s.addresses, target, now)
  {
    hide EffectivePort, Expiry, FindAddress, Fold;
    if NameMatches(e.host, target) { SameFound(s.addresses, e.host, target); }
  }

  predicate Announces(r: Record) {
    InClass(r) && r.data.Srv? && r.ttl > 0
  }

  /** Whether an SRV or TXT record leaves its entry backed. */
  predicate ServiceCovered(c: Cache, r: Record, now: u64) {
    Announces(r) ==>
      var (c', i) := ServiceEntry(c, r);
      i < |c'.search.discovered| ==> Covered(c'.search.discovered[i], c.search.addresses, r.data.target, now)
  }

  /** A service record keeps all entries backed exactly if it is no SRV announcement that is not covered. */
  lemma ServiceBackedExact(c: Cache, r: Record, now: u64)
    requires CacheOk(c.search, now) && AllBacked(c.search)
    ensures AllBacked(StepService(c, r, now).search) <==> ServiceCovered(c, r, now)
  {
    hide CacheOk, AllBacked, Covered, SrvApplied, ServiceWithdrawn, TxtAnnounced, AcceptedTxt, InstanceName,
         NameMatches, AllocateEntry, Expiry, FindEntry, WithEntry, NothingGained;
    if InClass(r) && (r.data.Srv? || r.data.Txt?) {
      AllocationBacked(c, r.owner);
      AllocationKeeps(c, r.owner, now);
      NewNamed(c, r.owner);
      var (c', i) := ServiceEntry(c, r);
      if i < |c'.search.discovered| {
        var e := c'.search.discovered[i];
        if r.data.Srv? && r.ttl > 0 {
          OneSane(c'.search, i, now);
          OneBackedExact(c'.search, i, r, now);
        } else if r.ttl == 0 {
          ServiceNothingGained(e, r.data.Srv?, [], 0);
          OneBacked(c'.search, i, ServiceWithdrawn(e, r.data.Srv?));
        } else if AcceptedTxt(r).Some? {
          ServiceNothingGained(e, false, AcceptedTxt(r).value, Expiry(now, r.ttl));
          OneBacked(c'.search, i, TxtAnnounced(e, AcceptedTxt(r).value, Expiry(now, r.ttl)));
        }
      }
    }
  }

  lemma NewNamed(c: Cache, name: seq<byte>)
    ensures var (c', i) := AllocateEntry(c, name);
            i < |c'.search.discovered| ==> c'.search.discovered[i].inUse
    ensures var i := FindEntry(c.search.discovered, name);
            i < |c.search.discovered| ==> c.search.discovered[i].inUse
  {
    hide NameMatches, InstanceName;
  }

  lemma OneBackedExact(s: Search, i: nat, r: Record, now: u64)
    requires AllBacked(s) && i < |s.discovered| && s.discovered[i].inUse && EntrySane(s.discovered[i]) && r.data.Srv?
    ensures var f := SrvApplied(s, s.discovered[i], r.data.port, r.data.target, now, r.ttl);
            AllBacked(WithEntry(s, i, f)) <==> Covered(s.discovered[i], s.addresses, r.data.target, now)
  {
    hide Backed, Covered, SrvApplied, EntrySane;
    var e := s.discovered[i];
    var f := SrvApplied(s, e, r.data.port, r.data.target, now, r.ttl);
    SrvBackedExact(s, e, r.data.port, r.data.target, now, r.ttl);
    if Backed(f, s.addresses) {
      StoreBacked(s, i, f);
    } else {
      assert WithEntry(s, i, f).discovered[i] == f;
    }
  }

  // ---------- A records ----------

  /** Lookups do not see changes at other names. */
  lemma {:induction false} FoundBeside(a: seq<Address>, k: nat, x: Address, host: seq<byte>)
    requires k < |a| && !AddressNamed(a[k], host) && !AddressNamed(x, host)
    ensures FindAddress(a[k := x], host) == FindAddress(a, host)
  {
    hide NameMatches;
    if k == 0 {
      assert a[k := x][1..] == a[1..];
    } else {
      assert a[k := x][1..] == a[1..][k - 1 := x];
      FoundBeside(a[1..], k - 1, x, host);
    }
  }

  /** And find a place whose name is new. */
  lemma {:induction false} FoundThere(a: seq<Address>, k: nat, x: Address, host: seq<byte>)
    requires k < |a| && AddressNamed(x, host) && (FindAddress(a, host) == k || FindAddress(a, host) == |a|)
    ensures FindAddress(a[k := x], host) == k
  {
    hide NameMatches;
    if k == 0 {
    } else {
      assert a[k := x][1..] == a[1..][k - 1 := x];
      FoundThere(a[1..], k - 1, x, host);
    }
  }

  lemma WithdrawalBacked(e: Entry, a: seq<Address>, owner: seq<byte>)
    requires Backed(e, a)
    ensures var i := FindAddress(a, owner);
            Backed(AddressWithdrawn(e, owner), if i < |a| then a[i := EMPTY_ADDRESS] else a)
  {
    hide FindAddress, Fold;
    var i := FindAddress(a, owner);
    if i < |a| && !HostedBy(e, owner) && e.inUse && e.hasSrv {
      FoundBeside(a, i, EMPTY_ADDRESS, e.host);
    }
  }

  lemma AnnouncementBacked(e: Entry, a: seq<Address>, owner: seq<byte>, ipv4: Ipv4, expires: u64)
    requires Backed(e, a) && AllocateAddress(a, owner).1 < |a|
    ensures var (b, i) := AllocateAddress(a, owner);
            Backed(AddressAnnounced(e, owner, ipv4, expires), b[i := b[i].(ipv4 := ipv4, expires := expires)])
  {
    hide FindAddress, Fold;
    var (b, i) := AllocateAddress(a, owner);
    var x := b[i].(ipv4 := ipv4, expires := expires);
    assert b[i := x] == a[i := x];
    if HostedBy(e, owner) {
      SameFound(a, e.host, owner);
      FoundThere(a, i, x, e.host);
    } else if e.inUse && e.hasSrv {
      FoundBeside(a, i, x, e.host);
    }
  }

  lemma AddressBacked(s: Search, r: Record, now: u64)
    requires AllBacked(s)
    ensures AllBacked(StepAddress(s, r, now))
  {
    hide Backed, FindAddress, NameMatches, AddressWithdrawn, AddressAnnounced, Expiry, AllocateAddress;
    forall i | 0 <= i < |s.discovered| && r.data.A?
      ensures r.ttl == 0 && InClass(r) ==>
                Backed(StepAddress(s, r, now).discovered[i], StepAddress(s, r, now).addresses)
      ensures r.ttl > 0 && InClass(r) ==>
                Backed(StepAddress(s, r, now).discovered[i], StepAddress(s, r, now).addresses)
    {
      WithdrawalBacked(s.discovered[i], s.addresses, r.owner);
      if AllocateAddress(s.addresses, r.owner).1 < |s.addresses| {
        AnnouncementBacked(s.discovered[i], s.addresses, r.owner, r.data.address, Expiry(now, r.ttl));
      }
    }
  }

  // ---------- Expiry, follow-up queries and dispatch ----------

  function ExpiredTable(a: seq<Address>, now: u64): (b: seq<Address>)
    ensures |b| == |a|
  {
    seq(|a|, i requires 0 <= i < |a| => ExpiredAddress(a[i], now))
  }

  lemma {:induction false} FoundUnexpired(a: seq<Address>, host: seq<byte>, now: u64)
    requires FindAddress(a, host) < |a| && a[FindAddress(a, host)].expires > now
    ensures FindAddress(ExpiredTable(a, now), host) == FindAddress(a, host)
    decreases |a|
  {
    hide NameMatches;
    assert ExpiredTable(a, now)[1..] == ExpiredTable(a[1..], now);
    if AddressNamed(a[0], host) {
    } else {
      FoundUnexpired(a[1..], host, now);
    }
  }

  lemma CacheParts(s: Search, now: u64)
    requires CacheOk(s, now)
    ensures DistinctNames(s.discovered) && DistinctHosts(s.addresses)
    ensures forall j :: 0 <= j < |s.addresses| ==> AddressSane(s.addresses[j])
  {
  }

  /** Once the only address of a host is gone, none is found. */
  lemma Uncached(a: seq<Address>, host: seq<byte>)
    requires DistinctHosts(a)
    ensures var k := FindAddress(a, host);
            var b := if k < |a| then a[k := EMPTY_ADDRESS] else a;
            FindAddress(b, host) == |b|
  {
    hide Fold;
    var k := FindAddress(a, host);
    var b := if k < |a| then a[k := EMPTY_ADDRESS] else a;
    forall j | 0 <= j < |b|
      ensures !AddressNamed(b[j], host)
    {
      TheAddressFound(a, host, j);
    }
  }

  lemma ExpiredUncached(a: seq<Address>, host: seq<byte>, at: u64)
    requires DistinctHosts(a) && FindAddress(a, host) < |a| && a[FindAddress(a, host)].expires <= at
    requires forall j :: 0 <= j < |a| ==> AddressSane(a[j])
    ensures var b := ExpiredTable(a, at); FindAddress(b, host) == |b|
  {
    hide Fold;
    var k, b := FindAddress(a, host), ExpiredTable(a, at);
    assert AddressSane(a[k]);
    forall j | 0 <= j < |b|
      ensures !AddressNamed(b[j], host)
    {
      TheAddressFound(a, host, j);
    }
  }

  lemma ExpiredBacked(e: Entry, a: seq<Address>, now: u64)
    requires Backed(e, a) && EntrySane(e)
    ensures Backed(ExpiredEntry(e, now), ExpiredTable(a, now))
  {
    hide FindAddress, Fold;
    if e.inUse && e.hasSrv && e.hasIpv4 && e.aExpires > now { FoundUnexpired(a, e.host, now); }
  }

  /** An address expires with the entries that hold it. */
  lemma ExpiryBacked(s: Search, at: u64, now: u64)
    requires CacheOk(s, now) && AllBacked(s)
    ensures AllBacked(ExpiredSearch(s, at))
  {
    hide Backed, ExpiredEntry, ExpiredAddress, EntrySane, Distinct, AddressAgreement;
    assert ExpiredSearch(s, at).addresses == ExpiredTable(s.addresses, at);
    forall i | 0 <= i < |s.discovered|
      ensures Backed(ExpiredEntry(s.discovered[i], at), ExpiredTable(s.addresses, at))
    {
      ExpiredBacked(s.discovered[i], s.addresses, at);
    }
  }

  lemma FollowUpBacked(s: Search, now: u64)
    requires AllBacked(s)
    ensures AllBacked(FollowedUpSearch(s, now))
  {
    hide Backed;
    forall i | 0 <= i < |s.discovered|
      ensures Backed(FollowedUp(s.discovered[i], now), s.addresses)
    {
      FollowUpGains(s.discovered[i], now);
      StillBacked(s.discovered[i], FollowedUp(s.discovered[i], now), s.addresses);
    }
  }

  lemma FollowUpGains(e: Entry, now: u64)
    ensures NothingGained(e, FollowedUp(e, now))
  {
  }

  lemma DispatchGains(e: Entry, token: Option<nat>)
    ensures NothingGained(e, DispatchedEntry(e, token))
  {
  }

  lemma DispatchBacked(s: Search, t: Search)
    requires AllBacked(s) && DispatchedSearch(s, t)
    ensures AllBacked(t)
  {
    hide Backed, DispatchedEntry, NothingGained;
    forall i | 0 <= i < |t.discovered|
      ensures Backed(t.discovered[i], t.addresses)
    {
      DispatchGains(s.discovered[i], KeptToken(s.discovered[i], t.discovered[i]));
      StillBacked(s.discovered[i], t.discovered[i], s.addresses);
    }
  }

  lemma EmptySearchBacked(s: Search)
    requires NoEntries(s)
    ensures AllBacked(s)
  {
  }

  // ---------- Whole packets ----------

  /** Every SRV announcement of a packet is covered when it is applied. */
  predicate AllCovered(c: Cache, records: seq<Record>, now: u64)
    decreases |records|
  {
    records == []
    || (ServiceCovered(c, records[0], now) && AllCovered(StepService(c, records[0], now), records[1..], now))
  }

  lemma {:induction false} PtrsBacked(c: Cache, records: seq<Record>, now: u64)
    requires AllBacked(c.search) && CacheOk(c.search, now)
    ensures AllBacked(FoldPtr(c, records, now).search) && CacheOk(FoldPtr(c, records, now).search, now)
    decreases |records|
  {
    hide AllBacked, CacheOk, StepPtr;
    if records == [] {
    } else {
      PtrBacked(c, records[0], now);
      PtrKeeps(c, records[0], now);
      PtrsBacked(StepPtr(c, records[0], now), records[1..], now);
    }
  }

  lemma {:induction false} ServicesBacked(c: Cache, records: seq<Record>, now: u64)
    requires AllBacked(c.search) && CacheOk(c.search, now) && AllCovered(c, records, now)
    ensures AllBacked(FoldService(c, records, now).search)
    decreases |records|
  {
    hide AllBacked, CacheOk, StepService, ServiceCovered;
    if records == [] {
    } else {
      ServiceBackedExact(c, records[0], now);
      ServiceKeeps(c, records[0], now);
      ServicesBacked(StepService(c, records[0], now), records[1..], now);
    }
  }

  lemma {:induction false} AddressesBacked(s: Search, records: seq<Record>, now: u64)
    requires AllBacked(s)
    ensures AllBacked(FoldAddress(s, records, now))
    decreases |records|
  {
    hide AllBacked, StepAddress;
    if records == [] {
    } else {
      AddressBacked(s, records[0], now);
      AddressesBacked(StepAddress(s, records[0], now), records[1..], now);
    }
  }

  /** A packet keeps all entries backed if its SRV announcements are covered. */
  lemma PacketBacked(c: Cache, records: seq<Record>, now: u64)
    requires AllBacked(c.search) && CacheOk(c.search, now)
    requires AllCovered(FoldPtr(c, records, now), records, now)
    ensures AllBacked(PacketApplied(c, records, now))
  {
    hide AllBacked, CacheOk, FoldPtr, FoldService, FoldAddress, FollowedUpSearch;
    var p := FoldPtr(c, records, now);
    PtrsBacked(c, records, now);
    ServicesBacked(p, records, now);
    AddressesBacked(FoldService(p, records, now).search, records, now);
    FollowUpBacked(FoldAddress(FoldService(p, records, now).search, records, now), now);
  }
}
