/** How long what a packet announces is held: a TTL counts seconds, the clock milliseconds. */
module ZeroconfTimes {
  import opened Options
  import opened WireNames
  import opened WireParse
  import opened WireBuild
  import opened WireRoundTrip
  import opened ZeroconfCache
  import opened ZeroconfEntry
  import opened ZeroconfSteps
  import opened ZeroconfBacked
  import opened ZeroconfAnnouncement

  /** What is announced at `now` for `ttl` seconds has expired exactly from the end of the last of them on, as long as
      the clock can tell. */
  lemma ExpiryExact(now: u64, ttl: u32, later: u64)
    requires ttl > 0 && later < 0xffff_ffff_ffff_ffff
    ensures Due(true, Expiry(now, ttl), later) <==> now + 1000 * ttl <= later
  {
  }

  // ---------- Folding in two parts ----------

  lemma {:induction false} PtrSplit(c: Cache, a: seq<Record>, b: seq<Record>, now: u64)
    ensures FoldPtr(c, a + b, now) == FoldPtr(FoldPtr(c, a, now), b, now)
    decreases |a|
  {
    hide StepPtr;
    if a == [] {
      assert a + b == b;
    } else {
      assert (a + b)[1..] == a[1..] + b && (a + b)[0] == a[0];
      PtrSplit(StepPtr(c, a[0], now), a[1..], b, now);
    }
  }

  lemma {:induction false} ServiceSplit(c: Cache, a: seq<Record>, b: seq<Record>, now: u64)
    ensures FoldService(c, a + b, now) == FoldService(FoldService(c, a, now), b, now)
    decreases |a|
  {
    hide StepService;
    if a == [] {
      assert a + b == b;
    } else {
      assert (a + b)[1..] == a[1..] + b && (a + b)[0] == a[0];
      ServiceSplit(StepService(c, a[0], now), a[1..], b, now);
    }
  }

  lemma {:induction false} AddressSplit(s: Search, a: seq<Record>, b: seq<Record>, now: u64)
    ensures FoldAddress(s, a + b, now) == FoldAddress(FoldAddress(s, a, now), b, now)
    decreases |a|
  {
    hide StepAddress;
    if a == [] {
      assert a + b == b;
    } else {
      assert (a + b)[1..] == a[1..] + b && (a + b)[0] == a[0];
      AddressSplit(StepAddress(s, a[0], now), a[1..], b, now);
    }
  }

  // ---------- What the phases of a packet leave alone ----------

  /** Entry i is there before and after, under the same name. */
  ghost predicate Stays(s: Search, t: Search, i: nat, now: u64) {
    && i < |s.discovered| == |t.discovered| && s.discovered[i].inUse && t.discovered[i].inUse
    && t.discovered[i].fqdn == s.discovered[i].fqdn && CacheOk(t, now) && t.serviceFqdn == s.serviceFqdn
  }

  predicate SamePtrFields(e: Entry, f: Entry) {
    f.hasPtr == e.hasPtr && f.ptrExpires == e.ptrExpires
  }

  predicate SameSrvFields(e: Entry, f: Entry) {
    f.hasSrv == e.hasSrv && f.srvExpires == e.srvExpires && f.host == e.host && f.port == e.port
  }

  predicate SameTxtFields(e: Entry, f: Entry) {
    f.hasTxt == e.hasTxt && f.txtExpires == e.txtExpires && f.txt == e.txt
  }

  predicate SameAddressFields(e: Entry, f: Entry) {
    f.hasIpv4 == e.hasIpv4 && f.aExpires == e.aExpires && f.ipv4 == e.ipv4
  }

  lemma Distinctly(s: Search, now: u64)
    requires CacheOk(s, now)
    ensures DistinctNames(s.discovered)
  {
  }

  lemma {:induction false} PtrStays(c: Cache, i: nat, records: seq<Record>, now: u64)
    requires CacheOk(c.search, now) && i < |c.search.discovered| && c.search.discovered[i].inUse
    ensures var s, t := c.search, FoldPtr(c, records, now).search;
            && Stays(s, t, i, now) && t.addresses == s.addresses
            && SameSrvFields(s.discovered[i], t.discovered[i]) && SameTxtFields(s.discovered[i], t.discovered[i])
            && SameAddressFields(s.discovered[i], t.discovered[i])
            && ((forall j :: 0 <= j < |records| ==> !PtrNames(s, records[j], s.discovered[i].fqdn)) ==>
                  t.discovered[i] == s.discovered[i])
    decreases |records|
  {
    hide CacheOk, StepPtr, PtrNames, PtrOn;
    if records == [] {
    } else {
      var d := StepPtr(c, records[0], now);
      Distinctly(c.search, now);
      PtrKeeps(c, records[0], now);
      PtrStepOn(c, i, records[0], now);
      PtrOnOnly(c.search.discovered[i], records[0], now);
      SameNaming(c.search, d.search, c.search.discovered[i].fqdn);
      PtrStays(d, i, records[1..], now);
    }
  }

  /** The entry under the same name, in use as before, with all but its PTR fields. */
  predicate KeptButPtr(e: Entry, f: Entry) {
    && f.inUse == e.inUse && f.fqdn == e.fqdn && SameSrvFields(e, f) && SameTxtFields(e, f)
    && SameAddressFields(e, f)
  }

  lemma PtrOnOnly(f: Entry, r: Record, now: u64)
    ensures KeptButPtr(f, PtrOn(f, r, now))
  {
    hide KeptButPtr, Expiry;
    PtrFieldsOnly(f, Expiry(now, r.ttl));
  }

  lemma PtrFieldsOnly(f: Entry, expires: u64)
    ensures KeptButPtr(f, f.(changes := f.changes + 1, hasPtr := false, ptrExpires := 0, remove := true))
    ensures KeptButPtr(f, f.(changes := f.changes + 1, hasPtr := true, ptrExpires := expires, remove := false))
  {
  }

  lemma SameNaming(s: Search, t: Search, fqdn: seq<byte>)
    requires SameFrame(s, t)
    ensures forall r :: PtrNames(t, r, fqdn) <==> PtrNames(s, r, fqdn)
  {
    hide NameMatches;
  }

  /** An SRV, or TXT, record about this instance. */
  predicate SrvNames(r: Record, fqdn: seq<byte>) {
    r.data.Srv? && InClass(r) && NameMatches(fqdn, r.owner)
  }

  predicate TxtNames(r: Record, fqdn: seq<byte>) {
    r.data.Txt? && InClass(r) && NameMatches(fqdn, r.owner)
  }

  lemma {:induction false} ServiceStays(c: Cache, i: nat, records: seq<Record>, now: u64)
    requires CacheOk(c.search, now) && i < |c.search.discovered| && c.search.discovered[i].inUse
    ensures var s, t := c.search, FoldService(c, records, now).search;
            && Stays(s, t, i, now) && t.addresses == s.addresses && SamePtrFields(s.discovered[i], t.discovered[i])
            && ((forall j :: 0 <= j < |records| ==> !SrvNames(records[j], s.discovered[i].fqdn)) ==>
                  SameSrvFields(s.discovered[i], t.discovered[i]))
            && ((forall j :: 0 <= j < |records| ==> !TxtNames(records[j], s.discovered[i].fqdn)) ==>
                  SameTxtFields(s.discovered[i], t.discovered[i]))
    decreases |records|
  {
    hide CacheOk, StepService, NameMatches, ServiceOn;
    if records == [] {
    } else {
      var d := StepService(c, records[0], now);
      Distinctly(c.search, now);
      ServiceKeeps(c, records[0], now);
      ServiceStepOn(c, i, records[0], now);
      ServiceOnOnly(c.search, c.search.discovered[i], records[0], now);
      ServiceStays(d, i, records[1..], now);
    }
  }

  /** The entry under the same name, in use as before, with its PTR fields. */
  predicate Kept(e: Entry, f: Entry) {
    f.inUse == e.inUse && f.fqdn == e.fqdn && SamePtrFields(e, f)
  }

  lemma ServiceOnOnly(s: Search, f: Entry, r: Record, now: u64)
    ensures var g := ServiceOn(s, f, r, now);
            && Kept(f, g) && (!r.data.Srv? ==> SameSrvFields(f, g)) && (!r.data.Txt? ==> SameTxtFields(f, g))
  {
    hide Kept, SameSrvFields, SameTxtFields, Expiry, EffectivePort, CachedAddress, AcceptedTxt, SrvAnnounced,
         CachedAddressApplied, ServiceWithdrawn, TxtAnnounced;
    KeptSelf(f);
    if r.data.Srv? {
      WithdrawnOnly(f, true);
      SrvOnly(f, EffectivePort(s, r.data.port), r.data.target, Expiry(now, r.ttl),
              CachedAddress(s.addresses, r.data.target, now));
    } else if r.data.Txt? {
      WithdrawnOnly(f, false);
      if AcceptedTxt(r).Some? { TxtOnly(f, AcceptedTxt(r).value, Expiry(now, r.ttl)); }
    }
  }

  lemma KeptSelf(f: Entry)
    ensures Kept(f, f) && SameSrvFields(f, f) && SameTxtFields(f, f)
  {
  }

  lemma WithdrawnOnly(f: Entry, srv: bool)
    ensures Kept(f, ServiceWithdrawn(f, srv))
    ensures if srv then SameTxtFields(f, ServiceWithdrawn(f, true)) else SameSrvFields(f, ServiceWithdrawn(f, false))
  {
  }

  lemma TxtOnly(f: Entry, txt: seq<seq<byte>>, expires: u64)
    ensures var g := TxtAnnounced(f, txt, expires);
            Kept(f, g) && SameSrvFields(f, g) && g.hasTxt && g.txtExpires == expires
  {
  }

  lemma SrvOnly(f: Entry, port: u16, target: seq<byte>, expires: u64, cached: Option<Address>)
    ensures var g := CachedAddressApplied(SrvAnnounced(f, port, target, expires), cached);
            Kept(f, g) && SameTxtFields(f, g) && g.hasSrv && g.srvExpires == expires
  {
    hide SrvAnnounced, CachedAddressApplied;
    AnnouncedOnly(f, port, target, expires);
    CachedOnly(SrvAnnounced(f, port, target, expires), cached);
  }

  lemma AnnouncedOnly(f: Entry, port: u16, target: seq<byte>, expires: u64)
    ensures var g := SrvAnnounced(f, port, target, expires);
            Kept(f, g) && SameTxtFields(f, g) && g.hasSrv && g.srvExpires == expires
  {
    hide HostChanged;
  }

  lemma CachedOnly(f: Entry, cached: Option<Address>)
    ensures var g := CachedAddressApplied(f, cached); Kept(f, g) && SameTxtFields(f, g) && SameSrvFields(f, g)
  {
    hide Kept, SameTxtFields, SameSrvFields;
    KeptSelf(f);
    if f.hasSrv && cached.Some? {
      var a := cached.value;
      AddressFieldsOnly(f, f.endpointChanged || (f.hasIpv4 && f.ipv4 != a.ipv4), a.ipv4, a.expires);
    }
  }

  lemma AddressFieldsOnly(f: Entry, changed: bool, ipv4: Ipv4, expires: u64)
    ensures var g := f.(changes := f.changes + 1, endpointChanged := changed, ipv4 := ipv4, aExpires := expires,
                        hasIpv4 := true);
            Kept(f, g) && SameTxtFields(f, g) && SameSrvFields(f, g)
  {
  }

  lemma AddressOnOnly(f: Entry, r: Record, room: bool, now: u64)
    ensures var g := AddressOn(f, r, room, now);
            && Kept(f, g) && SameSrvFields(f, g) && SameTxtFields(f, g)
            && (!(r.data.A? && InClass(r) && f.hasSrv && NameMatches(f.host, r.owner)) ==> g == f)
  {
    hide NameMatches, Expiry, Kept, SameSrvFields, SameTxtFields, AddressWithdrawn, AddressAnnounced;
    KeptSelf(f);
    if r.data.A? {
      GoneOnly(f, r.owner);
      ComeOnly(f, r.owner, r.data.address, Expiry(now, r.ttl));
    }
  }

  lemma GoneOnly(f: Entry, host: seq<byte>)
    ensures var g := AddressWithdrawn(f, host);
            && Kept(f, g) && SameSrvFields(f, g) && SameTxtFields(f, g) && (!HostedBy(f, host) ==> g == f)
  {
    hide HostedBy;
  }

  lemma ComeOnly(f: Entry, host: seq<byte>, ipv4: Ipv4, expires: u64)
    ensures var g := AddressAnnounced(f, host, ipv4, expires);
            && Kept(f, g) && SameSrvFields(f, g) && SameTxtFields(f, g) && (!HostedBy(f, host) ==> g == f)
            && (HostedBy(f, host) ==> g.hasIpv4 && g.aExpires == expires)
  {
    hide HostedBy;
  }

  /** A record about the address of this host. */
  predicate ANames(r: Record, host: seq<byte>) {
    r.data.A? && InClass(r) && NameMatches(host, r.owner)
  }

  lemma {:induction false} AddressStays(s: Search, i: nat, records: seq<Record>, now: u64)
    requires CacheOk(s, now) && i < |s.discovered| && s.discovered[i].inUse
    ensures var t := FoldAddress(s, records, now);
            && Stays(s, t, i, now) && SamePtrFields(s.discovered[i], t.discovered[i])
            && SameSrvFields(s.discovered[i], t.discovered[i]) && SameTxtFields(s.discovered[i], t.discovered[i])
            && ((forall j :: 0 <= j < |records| ==> !ANames(records[j], s.discovered[i].host)) ==>
                  SameAddressFields(s.discovered[i], t.discovered[i]))
    decreases |records|
  {
    hide CacheOk, StepAddress, NameMatches, AddressOn, HasRoom;
    if records == [] {
    } else {
      var t := StepAddress(s, records[0], now);
      AddressKeeps(s, records[0], now);
      AddressStepOn(s, i, records[0], now);
      AddressOnOnly(s.discovered[i], records[0], HasRoom(s.addresses, records[0].owner), now);
      SameServiceName(s, records[0], now);
      AddressStays(t, i, records[1..], now);
    }
  }

  lemma SameServiceName(s: Search, r: Record, now: u64)
    ensures StepAddress(s, r, now).serviceFqdn == s.serviceFqdn
  {
    hide NameMatches, AllocateAddress, FindAddress;
  }

  /** The last step of a packet sets query times only. */
  lemma QueryTimesOnly(e: Entry, now: u64)
    ensures var f := FollowedUp(e, now);
            && f.inUse == e.inUse && SamePtrFields(e, f) && SameSrvFields(e, f) && SameTxtFields(e, f)
            && SameAddressFields(e, f)
  {
  }

  /** What an expiry leaves. */
  predicate Unexpired(e: Entry, f: Entry, later: u64) {
    && (f.hasPtr <==> e.hasPtr && !Due(true, e.ptrExpires, later))
    && (f.hasSrv <==> e.hasSrv && !Due(true, e.srvExpires, later))
    && (f.hasTxt <==> e.hasTxt && !Due(true, e.txtExpires, later))
    && (f.hasIpv4 <==> e.hasIpv4 && !Due(true, e.aExpires, later))
  }

  lemma DueOnly(e: Entry, later: u64)
    requires e.inUse
    ensures Unexpired(e, ExpiredEntry(e, later), later)
  {
  }

  lemma LastSteps(s: Search, i: nat, now: u64, later: u64)
    requires i < |s.discovered| && s.discovered[i].inUse
    ensures Unexpired(s.discovered[i], ExpiredSearch(FollowedUpSearch(s, now), later).discovered[i], later)
  {
    hide FollowedUp, ExpiredEntry;
    QueryTimesOnly(s.discovered[i], now);
    DueOnly(FollowedUp(s.discovered[i], now), later);
  }

  // ---------- Lifetimes ----------

  /** The PTR, SRV, TXT or A record with index n is the last one of the packet about the entry, and announces it. */

  predicate LastPtr(s: Search, fqdn: seq<byte>, records: seq<Record>, n: nat) {
    && n < |records| && PtrNames(s, records[n], fqdn) && records[n].ttl > 0
    && forall j :: n < j < |records| ==> !PtrNames(s, records[j], fqdn)
  }

  predicate LastSrv(fqdn: seq<byte>, records: seq<Record>, n: nat) {
    && n < |records| && SrvNames(records[n], fqdn) && records[n].ttl > 0
    && forall j :: n < j < |records| ==> !SrvNames(records[j], fqdn)
  }

  predicate LastTxt(fqdn: seq<byte>, records: seq<Record>, n: nat) {
    && n < |records| && TxtNames(records[n], fqdn) && records[n].ttl > 0 && AcceptedTxt(records[n]).Some?
    && forall j :: n < j < |records| ==> !TxtNames(records[j], fqdn)
  }

  predicate LastA(host: seq<byte>, records: seq<Record>, n: nat) {
    && n < |records| && ANames(records[n], host) && records[n].ttl > 0
    && forall j :: n < j < |records| ==> !ANames(records[j], host)
  }

  lemma Parts(records: seq<Record>, n: nat)
    requires n < |records|
    ensures records == records[..n] + ([records[n]] + records[n + 1..])
  {
  }

  /** The entry after the three phases. */
  function Phased(c: Cache, records: seq<Record>, now: u64): Search {
    FoldAddress(FoldService(FoldPtr(c, records, now), records, now).search, records, now)
  }

  lemma PhasedIs(c: Cache, records: seq<Record>, now: u64)
    ensures PacketApplied(c, records, now) == FollowedUpSearch(Phased(c, records, now), now)
  {
    hide FoldPtr, FoldService, FoldAddress, FollowedUpSearch;
  }

  lemma PtrHeld(c: Cache, i: nat, records: seq<Record>, n: nat, now: u64)
    requires CacheOk(c.search, now) && i < |c.search.discovered| && c.search.discovered[i].inUse
    requires LastPtr(c.search, c.search.discovered[i].fqdn, records, n)
    ensures var t := Phased(c, records, now);
            && |t.discovered| == |c.search.discovered| && t.discovered[i].inUse
            && t.discovered[i].hasPtr && t.discovered[i].ptrExpires == Expiry(now, records[n].ttl)
  {
    hide CacheOk, StepPtr, PtrNames, FoldService, FoldAddress, Expiry;
    var fqdn, before, after := c.search.discovered[i].fqdn, records[..n], records[n + 1..];
    Parts(records, n);
    PtrSplit(c, before, [records[n]] + after, now);
    PtrStays(c, i, before, now);
    var d := FoldPtr(c, before, now);
    FoldedSame(c, before, now);
    SameNaming(c.search, d.search, fqdn);
    Distinctly(d.search, now);
    PtrStepOn(d, i, records[n], now);
    PtrKeeps(d, records[n], now);
    var m := StepPtr(d, records[n], now);
    SameNaming(d.search, m.search, fqdn);
    FirstStep(d, records[n], after, now);
    PtrStays(m, i, after, now);
    var p := FoldPtr(c, records, now);
    ServiceStays(p, i, records, now);
    AddressStays(FoldService(p, records, now).search, i, records, now);
  }

  lemma FirstStep(c: Cache, r: Record, rest: seq<Record>, now: u64)
    ensures FoldPtr(c, [r] + rest, now) == FoldPtr(StepPtr(c, r, now), rest, now)
    ensures FoldService(c, [r] + rest, now) == FoldService(StepService(c, r, now), rest, now)
    ensures FoldAddress(c.search, [r] + rest, now) == FoldAddress(StepAddress(c.search, r, now), rest, now)
  {
    hide StepPtr, StepService, StepAddress;
    assert ([r] + rest)[1..] == rest;
  }

  lemma {:induction false} FoldedSame(c: Cache, records: seq<Record>, now: u64)
    ensures SameFrame(c.search, FoldPtr(c, records, now).search)
    decreases |records|
  {
    hide StepPtr;
    if records == [] {
    } else {
      PtrFrame(c, records[0], now);
      FoldedSame(StepPtr(c, records[0], now), records[1..], now);
    }
  }

  lemma PtrFrame(c: Cache, r: Record, now: u64)
    ensures SameFrame(c.search, StepPtr(c, r, now).search)
  {
    hide NameMatches, InstanceName, Expiry, FindEntry, AllocateEntry, WithEntry, PtrOn;
    if r.data.Ptr? && InClass(r) && NameMatches(r.owner, c.search.serviceFqdn) {
      if r.ttl == 0 {
        var j := FindEntry(c.search.discovered, r.data.target);
        if j < |c.search.discovered| { StoredPtr(c.search, j, r, now); }
      } else {
        AllocationFrame(c, r.data.target);
        var (d, j) := AllocateEntry(c, r.data.target);
        if j < |d.search.discovered| { StoredPtr(d.search, j, r, now); }
      }
    }
  }

  lemma AllocationFrame(c: Cache, fqdn: seq<byte>)
    ensures SameFrame(c.search, AllocateEntry(c, fqdn).0.search)
  {
    hide FindEntry, InstanceName;
  }

  lemma SrvHeld(c: Cache, i: nat, records: seq<Record>, n: nat, now: u64)
    requires CacheOk(c.search, now) && i < |c.search.discovered| && c.search.discovered[i].inUse
    requires LastSrv(c.search.discovered[i].fqdn, records, n)
    ensures var t := Phased(c, records, now);
            && |t.discovered| == |c.search.discovered| && t.discovered[i].inUse
            && t.discovered[i].hasSrv && t.discovered[i].srvExpires == Expiry(now, records[n].ttl)
  {
    hide CacheOk, StepService, NameMatches, FoldPtr, FoldAddress, Expiry, ServiceOn;
    var before, after := records[..n], records[n + 1..];
    Parts(records, n);
    PtrStays(c, i, records, now);
    var p := FoldPtr(c, records, now);
    ServiceSplit(p, before, [records[n]] + after, now);
    ServiceStays(p, i, before, now);
    var d := FoldService(p, before, now);
    Distinctly(d.search, now);
    ServiceStepOn(d, i, records[n], now);
    ServiceKeeps(d, records[n], now);
    SrvOn(d.search, d.search.discovered[i], records[n], now);
    FirstStep(d, records[n], after, now);
    ServiceStays(StepService(d, records[n], now), i, after, now);
    AddressStays(FoldService(p, records, now).search, i, records, now);
  }

  lemma SrvOn(s: Search, f: Entry, r: Record, now: u64)
    requires r.data.Srv? && r.ttl > 0
    ensures var g := ServiceOn(s, f, r, now); g.hasSrv && g.srvExpires == Expiry(now, r.ttl) && Kept(f, g)
  {
    hide SrvAnnounced, CachedAddressApplied, CachedAddress, EffectivePort, Expiry, Kept;
    SrvOnly(f, EffectivePort(s, r.data.port), r.data.target, Expiry(now, r.ttl),
            CachedAddress(s.addresses, r.data.target, now));
  }

  lemma TxtHeld(c: Cache, i: nat, records: seq<Record>, n: nat, now: u64)
    requires CacheOk(c.search, now) && i < |c.search.discovered| && c.search.discovered[i].inUse
    requires LastTxt(c.search.discovered[i].fqdn, records, n)
    ensures var t := Phased(c, records, now);
            && |t.discovered| == |c.search.discovered| && t.discovered[i].inUse
            && t.discovered[i].hasTxt && t.discovered[i].txtExpires == Expiry(now, records[n].ttl)
  {
    hide CacheOk, StepService, NameMatches, FoldPtr, FoldAddress, Expiry, ServiceOn, AcceptedTxt;
    var before, after := records[..n], records[n + 1..];
    Parts(records, n);
    PtrStays(c, i, records, now);
    var p := FoldPtr(c, records, now);
    ServiceSplit(p, before, [records[n]] + after, now);
    ServiceStays(p, i, before, now);
    var d := FoldService(p, before, now);
    Distinctly(d.search, now);
    ServiceStepOn(d, i, records[n], now);
    ServiceKeeps(d, records[n], now);
    TxtOn(d.search, d.search.discovered[i], records[n], now);
    FirstStep(d, records[n], after, now);
    ServiceStays(StepService(d, records[n], now), i, after, now);
    AddressStays(FoldService(p, records, now).search, i, records, now);
  }

  lemma TxtOn(s: Search, f: Entry, r: Record, now: u64)
    requires r.data.Txt? && r.ttl > 0 && AcceptedTxt(r).Some?
    ensures var g := ServiceOn(s, f, r, now); g.hasTxt && g.txtExpires == Expiry(now, r.ttl) && Kept(f, g)
  {
    hide AcceptedTxt, Expiry, Kept, TxtAnnounced;
    TxtOnly(f, AcceptedTxt(r).value, Expiry(now, r.ttl));
  }

  lemma AHeld(c: Cache, i: nat, records: seq<Record>, n: nat, now: u64)
    requires CacheOk(c.search, now) && i < |c.search.discovered| && c.search.discovered[i].inUse
    requires var f := PacketApplied(c, records, now).discovered;
             |f| == |c.search.discovered| && f[i].hasSrv && LastA(f[i].host, records, n)
    requires HasRoom(FoldAddress(c.search, records[..n], now).addresses, records[n].owner)
    ensures var t := Phased(c, records, now);
            && |t.discovered| == |c.search.discovered| && t.discovered[i].inUse
            && t.discovered[i].hasIpv4 && t.discovered[i].aExpires == Expiry(now, records[n].ttl)
  {
    hide CacheOk, StepAddress, NameMatches, FoldPtr, FoldService, Expiry, AddressOn, HasRoom, FollowedUpSearch;
    var before, after := records[..n], records[n + 1..];
    Parts(records, n);
    PtrStays(c, i, records, now);
    var p := FoldPtr(c, records, now);
    ServiceStays(p, i, records, now);
    var v := FoldService(p, records, now).search;
    SameRoom(c.search, v, before, now);
    AddressSplit(v, before, [records[n]] + after, now);
    AddressStays(v, i, before, now);
    var d := FoldAddress(v, before, now);
    AddressStepOn(d, i, records[n], now);
    AddressKeeps(d, records[n], now);
    AddressStays(v, i, records, now);
    PhasedIs(c, records, now);
    FollowedHost(Phased(c, records, now), i, now);
    AOn(d.discovered[i], records[n], now);
    FirstStep(Cache(d, 0), records[n], after, now);
    AddressStays(StepAddress(d, records[n], now), i, after, now);
  }

  lemma FollowedHost(s: Search, i: nat, now: u64)
    requires i < |s.discovered|
    ensures var f := FollowedUpSearch(s, now).discovered;
            |f| == |s.discovered| && f[i].host == s.discovered[i].host && f[i].hasSrv == s.discovered[i].hasSrv
  {
  }

  lemma AOn(f: Entry, r: Record, now: u64)
    requires r.data.A? && InClass(r) && r.ttl > 0 && f.inUse && f.hasSrv && NameMatches(f.host, r.owner)
    ensures var g := AddressOn(f, r, true, now);
            && g.hasIpv4 && g.aExpires == Expiry(now, r.ttl) && Kept(f, g) && SameSrvFields(f, g)
  {
    hide NameMatches, Expiry, Kept, SameSrvFields, AddressAnnounced;
    ComeOnly(f, r.owner, r.data.address, Expiry(now, r.ttl));
  }

  /** The address table does not depend on the entries. */
  lemma {:induction false} SameRoom(s: Search, t: Search, records: seq<Record>, now: u64)
    requires s.addresses == t.addresses
    ensures FoldAddress(s, records, now).addresses == FoldAddress(t, records, now).addresses
    decreases |records|
  {
    hide StepAddress;
    if records == [] {
    } else {
      TableStepOf(s, records[0], now);
      TableStepOf(t, records[0], now);
      SameRoom(StepAddress(s, records[0], now), StepAddress(t, records[0], now), records[1..], now);
    }
  }

  /** A known instance's PTR, SRV, TXT or A record, announced last at `now` for `ttl` seconds, outlives every expiry
      before the end of these seconds, and none after it. */

  lemma PtrLifetime(c: Cache, i: nat, records: seq<Record>, n: nat, now: u64, later: u64)
    requires CacheOk(c.search, now) && i < |c.search.discovered| && c.search.discovered[i].inUse
    requires LastPtr(c.search, c.search.discovered[i].fqdn, records, n) && later < 0xffff_ffff_ffff_ffff
    ensures var t := ExpiredSearch(PacketApplied(c, records, now), later);
            && |t.discovered| == |c.search.discovered|
            && (t.discovered[i].hasPtr <==> later < now + 1000 * records[n].ttl)
  {
    hide CacheOk, Phased, PacketApplied, ExpiredSearch, Expiry, PtrNames, FollowedUpSearch, Due;
    PtrHeld(c, i, records, n, now);
    ExpiryExact(now, records[n].ttl, later);
    Finally(c, i, records, now, later);
  }

  lemma SrvLifetime(c: Cache, i: nat, records: seq<Record>, n: nat, now: u64, later: u64)
    requires CacheOk(c.search, now) && i < |c.search.discovered| && c.search.discovered[i].inUse
    requires LastSrv(c.search.discovered[i].fqdn, records, n) && later < 0xffff_ffff_ffff_ffff
    ensures var t := ExpiredSearch(PacketApplied(c, records, now), later);
            && |t.discovered| == |c.search.discovered|
            && (t.discovered[i].hasSrv <==> later < now + 1000 * records[n].ttl)
  {
    hide CacheOk, Phased, PacketApplied, ExpiredSearch, Expiry, SrvNames, FollowedUpSearch, Due;
    SrvHeld(c, i, records, n, now);
    ExpiryExact(now, records[n].ttl, later);
    Finally(c, i, records, now, later);
  }

  lemma TxtLifetime(c: Cache, i: nat, records: seq<Record>, n: nat, now: u64, later: u64)
    requires CacheOk(c.search, now) && i < |c.search.discovered| && c.search.discovered[i].inUse
    requires LastTxt(c.search.discovered[i].fqdn, records, n) && later < 0xffff_ffff_ffff_ffff
    ensures var t := ExpiredSearch(PacketApplied(c, records, now), later);
            && |t.discovered| == |c.search.discovered|
            && (t.discovered[i].hasTxt <==> later < now + 1000 * records[n].ttl)
  {
    hide CacheOk, Phased, PacketApplied, ExpiredSearch, Expiry, TxtNames, AcceptedTxt, FollowedUpSearch, Due;
    TxtHeld(c, i, records, n, now);
    ExpiryExact(now, records[n].ttl, later);
    Finally(c, i, records, now, later);
  }

  lemma ALifetime(c: Cache, i: nat, records: seq<Record>, n: nat, now: u64, later: u64)
    requires CacheOk(c.search, now) && i < |c.search.discovered| && c.search.discovered[i].inUse
    requires var f := PacketApplied(c, records, now).discovered;
             |f| == |c.search.discovered| && f[i].hasSrv && LastA(f[i].host, records, n)
    requires HasRoom(FoldAddress(c.search, records[..n], now).addresses, records[n].owner)
    requires later < 0xffff_ffff_ffff_ffff
    ensures var t := ExpiredSearch(PacketApplied(c, records, now), later);
            && |t.discovered| == |c.search.discovered|
            && (t.discovered[i].hasIpv4 <==> later < now + 1000 * records[n].ttl)
  {
    hide CacheOk, Phased, PacketApplied, ExpiredSearch, Expiry, ANames, FollowedUpSearch, HasRoom, FoldAddress, Due;
    AHeld(c, i, records, n, now);
    ExpiryExact(now, records[n].ttl, later);
    Finally(c, i, records, now, later);
  }

  lemma Finally(c: Cache, i: nat, records: seq<Record>, now: u64, later: u64)
    requires var d := Phased(c, records, now).discovered; i < |d| && d[i].inUse
    ensures var e, t := Phased(c, records, now).discovered[i], ExpiredSearch(PacketApplied(c, records, now), later);
            && |t.discovered| == |Phased(c, records, now).discovered|
            && Unexpired(e, t.discovered[i], later)
  {
    hide Phased, Due, PacketApplied, Unexpired;
    PhasedIs(c, records, now);
    LastSteps(Phased(c, records, now), i, now, later);
  }

  // ---------- Cached addresses ----------

  /** The address cached for a host after some records, if its last A record is the n-th and finds room. */
  lemma CachedLifetime(c: Cache, host: seq<byte>, records: seq<Record>, n: nat, now: u64, later: u64)
    requires CacheOk(c.search, now) && LastA(host, records, n) && later < 0xffff_ffff_ffff_ffff
    requires HasRoom(FoldAddress(c.search, records[..n], now).addresses, records[n].owner)
    ensures var a := ExpiredSearch(FoldAddress(c.search, records, now), later).addresses;
            FindAddress(a, host) < |a| <==> later < now + 1000 * records[n].ttl
  {
    hide CacheOk, StepAddress, NameMatches, Expiry, HasRoom, FindAddress, TableStep, ExpiredTable, Due;
    var s, before, after := c.search, records[..n], records[n + 1..];
    Parts(records, n);
    AddressSplit(s, before, [records[n]] + after, now);
    FoldKeeps(s, before, now);
    var d := FoldAddress(s, before, now);
    TableStepOf(d, records[n], now);
    AddressKeeps(d, records[n], now);
    CachedNow(d.addresses, host, records[n], now);
    FirstStep(Cache(d, 0), records[n], after, now);
    var m := StepAddress(d, records[n], now);
    CachedStays(m, host, after, now);
    FoldKeeps(m, after, now);
    var t := FoldAddress(s, records, now);
    CacheParts(t, now);
    ExpiryExact(now, records[n].ttl, later);
    ExpiredTables(t, later);
    TableExpiry(t.addresses, host, Expiry(now, records[n].ttl), later);
  }

  lemma ExpiredTables(s: Search, later: u64)
    ensures ExpiredSearch(s, later).addresses == ExpiredTable(s.addresses, later)
  {
  }

  lemma TableExpiry(a: seq<Address>, host: seq<byte>, expires: u64, later: u64)
    requires DistinctHosts(a) && (forall j :: 0 <= j < |a| ==> AddressSane(a[j]))
    requires FindAddress(a, host) < |a| && a[FindAddress(a, host)].expires == expires
    ensures var b := ExpiredTable(a, later); FindAddress(b, host) < |b| <==> !Due(true, expires, later)
  {
    hide DistinctHosts, NameMatches;
    if expires > later { FoundUnexpired(a, host, later); } else { ExpiredUncached(a, host, later); }
    assert AddressSane(a[FindAddress(a, host)]);
  }

  lemma {:induction false} FoldKeeps(s: Search, records: seq<Record>, now: u64)
    requires CacheOk(s, now)
    ensures CacheOk(FoldAddress(s, records, now), now)
    decreases |records|
  {
    hide CacheOk, StepAddress;
    if records == [] {
    } else {
      AddressKeeps(s, records[0], now);
      FoldKeeps(StepAddress(s, records[0], now), records[1..], now);
    }
  }

  lemma TableStepOf(s: Search, r: Record, now: u64)
    ensures StepAddress(s, r, now).addresses == TableStep(s.addresses, r, now)
  {
    hide FindAddress, AllocateAddress, Expiry;
  }

  lemma CachedNow(a: seq<Address>, host: seq<byte>, r: Record, now: u64)
    requires ANames(r, host) && r.ttl > 0 && HasRoom(a, r.owner)
    ensures var b := TableStep(a, r, now);
            FindAddress(b, host) < |b| && b[FindAddress(b, host)].expires == Expiry(now, r.ttl)
  {
    hide Fold, FindAddress, Expiry;
    var (b, k) := AllocateAddress(a, r.owner);
    var x := b[k].(ipv4 := r.data.address, expires := Expiry(now, r.ttl));
    assert TableStep(a, r, now) == a[k := x];
    FoundThere(a, k, x, r.owner);
    SameFound(a[k := x], host, r.owner);
  }

  /** It is the announced one, and a withdrawal takes it away. */
  lemma CachedData(a: seq<Address>, host: seq<byte>, r: Record, now: u64)
    requires ANames(r, host) && DistinctHosts(a)
    ensures var b := TableStep(a, r, now);
            if r.ttl == 0 then FindAddress(b, host) == |b|
            else HasRoom(a, r.owner) ==> FindAddress(b, host) < |b| && b[FindAddress(b, host)].ipv4 == r.data.address
  {
    hide Fold, FindAddress, Expiry, DistinctHosts;
    if r.ttl == 0 {
      NoneLeft(a, host, r.owner);
    } else if HasRoom(a, r.owner) {
      var (b, k) := AllocateAddress(a, r.owner);
      var x := b[k].(ipv4 := r.data.address, expires := Expiry(now, r.ttl));
      assert TableStep(a, r, now) == a[k := x];
      FoundThere(a, k, x, r.owner);
      SameFound(a[k := x], host, r.owner);
    }
  }

  lemma NoneLeft(a: seq<Address>, host: seq<byte>, owner: seq<byte>)
    requires DistinctHosts(a) && NameMatches(host, owner)
    ensures var i := FindAddress(a, owner);
            var b := if i < |a| then a[i := EMPTY_ADDRESS] else a;
            FindAddress(b, host) == |b|
  {
    hide Fold;
  }

  lemma {:induction false} CachedStays(s: Search, host: seq<byte>, records: seq<Record>, now: u64)
    requires forall j :: 0 <= j < |records| ==> !ANames(records[j], host)
    requires FindAddress(s.addresses, host) < |s.addresses|
    ensures var a, b := s.addresses, FoldAddress(s, records, now).addresses;
            && |b| == |a| && FindAddress(b, host) == FindAddress(a, host)
            && b[FindAddress(a, host)] == a[FindAddress(a, host)]
    decreases |records|
  {
    hide StepAddress, NameMatches, FindAddress, TableStep;
    if records == [] {
    } else {
      assert !ANames(records[0], host);
      TableStepOf(s, records[0], now);
      CachedBeside(s.addresses, host, records[0], now);
      CachedStays(StepAddress(s, records[0], now), host, records[1..], now);
    }
  }

  lemma CachedBeside(a: seq<Address>, host: seq<byte>, r: Record, now: u64)
    requires !ANames(r, host) && FindAddress(a, host) < |a|
    ensures var b := TableStep(a, r, now);
            FindAddress(b, host) == FindAddress(a, host) && b[FindAddress(a, host)] == a[FindAddress(a, host)]
  {
    hide Fold, FindAddress, Expiry;
    if r.data.A? && InClass(r) {
      if r.ttl == 0 {
        var k := FindAddress(a, r.owner);
        if k < |a| { FoundBeside(a, k, EMPTY_ADDRESS, host); }
      } else {
        var (b, k) := AllocateAddress(a, r.owner);
        if k < |b| {
          var x := b[k].(ipv4 := r.data.address, expires := Expiry(now, r.ttl));
          assert TableStep(a, r, now) == a[k := x];
          FoundBeside(a, k, x, host);
        }
      }
    }
  }

  // ---------- Marks ----------

  /** An expiry marks an entry exactly if it loses the PTR record, or holds none of PTR, SRV and TXT afterwards. */
  lemma MarkedExactly(e: Entry, later: u64)
    requires e.inUse
    ensures var f := ExpiredEntry(e, later);
            f.remove <==> e.remove || (e.hasPtr && !f.hasPtr) || !(f.hasPtr || f.hasSrv || f.hasTxt)
  {
  }

  // ---------- Announcements ----------

  /** End to end: a service that was announced at `now` for `ttl` seconds is complete at every expiry before their end,
      and lacks all four records at every one after it. */
  lemma AnnouncementLasts(c: Cache, s: Service, o: ResponseOptions, now: u64, later: u64)
    requires Buildable(s) && Terminated(s) && Parseable(s) && Acceptable(s) && !o.goodbye && o.ttl > 0
    requires CacheOk(c.search, now) && NameMatches(c.search.serviceFqdn, ServiceName(s))
    requires EntryFor(c.search.discovered, InstanceText(s)) < |c.search.discovered|
    requires AllocateAddress(c.search.addresses, HostText(s)).1 < |c.search.addresses|
    requires later < 0xffff_ffff_ffff_ffff
    ensures ParseAll(ServicePacket(s, o)).Success?
    ensures var i := EntryFor(c.search.discovered, InstanceText(s));
            var t := PacketApplied(c, Bounded(ParseAll(ServicePacket(s, o)).value.0).records, now);
            && i < |t.discovered|
            && var f := ExpiredEntry(t.discovered[i], later);
               if later < now + 1000 * o.ttl then f.Complete()
               else !f.hasPtr && !f.hasSrv && !f.hasTxt && !f.hasIpv4 && f.remove
  {
    hide ServicePacket, PacketApplied, ParseAll, CacheOk, NameMatches, Expiry, EntryFor, AllocateAddress, Terminated,
         Parseable, Buildable, Acceptable, ServiceName, InstanceText, HostText;
    AnnouncementUpdates(c, s, o, now);
    ExpiryExact(now, o.ttl, later);
  }
}
