/** From the publisher to the searcher: what an announcement and a goodbye do to a search that receives them. */
module ZeroconfAnnouncement {
  import opened Options
  import opened WireNames
  import opened WireWriter
  import opened WireParse
  import opened WireBuild
  import opened WireRoundTrip
  import opened ZeroconfCache
  import opened ZeroconfEntry
  import opened ZeroconfTokens
  import opened ZeroconfSteps

  /** What a searcher can take over: TXT strings it accepts. */
  predicate Acceptable(s: Service) {
    |s.txt| <= MAX_TXT_RECORDS && forall i :: 0 <= i < |s.txt| ==> NulFree(s.txt[i])
  }

  /** The service as a searcher should see it. */
  predicate Shows(e: Entry, s: Service, port: u16)
    requires ServiceValid(s)
  {
    && e.inUse && !e.remove && e.Complete() && e.name == s.instance && e.fqdn == InstanceText(s)
    && e.host == HostText(s) && e.port == port && e.ipv4 == s.ipv4 && e.txt == s.txt
  }

  ghost predicate OnlyEntry(s: Search, t: Search, e: Entry)
    requires s.Shaped()
  {
    t == s.(discovered := s.discovered[0 := e])
  }

  lemma SameName(name: seq<byte>)
    ensures NameMatches(name, name)
  {
  }

  /** The full names of instance and host fit the tables, and the instance is recognised as one of the service. */
  lemma NamesFit(s: Service, fqdn: seq<byte>)
    requires Buildable(s) && Parseable(s) && NameMatches(fqdn, ServiceName(s))
    ensures |InstanceText(s)| < MAX_NAME && 0 < |HostText(s)| < MAX_NAME
    ensures InstanceName(fqdn, InstanceText(s)) == Some(s.instance)
  {
    hide NameMatches, JoinedName, Join, LabelsOk, Labels, DomainLabels, ServiceName, BodyLength, InstanceName;
    ServiceLabels(s);
    JoinLength(Labels(ServiceName(s)));
    JoinLength(DomainLabels(s));
    Symmetric(fqdn, ServiceName(s));
    InstanceRecognised(fqdn, s.instance, ServiceName(s));
  }

  lemma InstanceRecognised(fqdn: seq<byte>, instance: seq<byte>, service: seq<byte>)
    requires NameMatches(service, fqdn) && 0 < |instance| < MAX_NAME
    ensures InstanceName(fqdn, instance + [DOT] + service) == Some(instance)
  {
    MatchesEmpty(service, fqdn);
    var name, n := instance + [DOT] + service, |instance|;
    assert name[n + 1..] == service && name[..n] == instance;
  }

  lemma Symmetric(a: seq<byte>, b: seq<byte>)
    requires NameMatches(a, b)
    ensures NameMatches(b, a)
  {
  }

  lemma NothingFound(d: seq<Entry>, name: seq<byte>)
    requires |d| > 0 && forall i :: 0 <= i < |d| ==> !d[i].inUse
    ensures FindEntry(d, name) == |d| && FreeEntry(d) == 0
  {
  }

  lemma FirstFound(d: seq<Entry>, name: seq<byte>)
    requires |d| > 0 && d[0].inUse && d[0].fqdn == name
    ensures FindEntry(d, name) == 0
  {
    SameName(name);
    assert EntryNamed(d[0], name);
  }

  function NewEntry(s: Service, token: nat): Entry
    requires ServiceValid(s)
  {
    EMPTY_ENTRY.(inUse := true, token := Some(token), fqdn := InstanceText(s), name := s.instance)
  }

  lemma PtrStep(c: Cache, s: Service, r: Record, now: u64)
    requires Buildable(s) && Parseable(s) && c.search.Shaped() && NoEntries(c.search)
    requires NameMatches(c.search.serviceFqdn, ServiceName(s))
    requires InClass(r) && r.data == Ptr(InstanceText(s)) && r.owner == ServiceName(s) && r.ttl > 0
    ensures var e := NewEntry(s, c.nextToken);
            var c' := StepPtr(c, r, now);
            OnlyEntry(c.search, c'.search, e.(changes := 1, hasPtr := true, ptrExpires := Expiry(now, r.ttl)))
  {
    hide NameMatches, ServiceName, InstanceName, Expiry;
    NamesFit(s, c.search.serviceFqdn);
    Symmetric(c.search.serviceFqdn, ServiceName(s));
    NothingFound(c.search.discovered, InstanceText(s));
    var e := NewEntry(s, c.nextToken);
    assert c.search.discovered[0 := e][0 := e.(changes := 1, hasPtr := true, ptrExpires := Expiry(now, r.ttl))]
        == c.search.discovered[0 := e.(changes := 1, hasPtr := true, ptrExpires := Expiry(now, r.ttl))];
  }

  lemma SrvStep(c: Cache, s: Search, e: Entry, r: Record, port: u16, target: seq<byte>, now: u64)
    requires s.Shaped() && NoEntries(s) && OnlyEntry(s, c.search, e) && e.inUse && e.fqdn == r.owner && e.host == []
    requires !e.hasIpv4
    requires InClass(r) && r.data.Srv? && r.data.port == port && r.data.target == target && r.ttl > 0
    ensures OnlyEntry(s, StepService(c, r, now).search,
                      e.(changes := e.changes + 1,
                         endpointChanged := e.endpointChanged || (e.hasSrv && e.port != EffectivePort(s, port)),
                         port := EffectivePort(s, port), host := target, hasSrv := true,
                         srvExpires := Expiry(now, r.ttl)))
  {
    hide NameMatches, InstanceName, Expiry;
    FirstFound(c.search.discovered, r.owner);
    assert CachedAddress(s.addresses, target, now).None?;
  }

  lemma TxtStep(c: Cache, s: Search, e: Entry, r: Record, txt: seq<seq<byte>>, now: u64)
    requires s.Shaped() && OnlyEntry(s, c.search, e) && e.inUse && e.fqdn == r.owner
    requires |txt| <= MAX_TXT_RECORDS && forall i :: 0 <= i < |txt| ==> NulFree(txt[i]) && |txt[i]| <= 255
    requires InClass(r) && r.data == Txt(TxtBytes(txt), |txt|) && r.ttl > 0
    ensures OnlyEntry(s, StepService(c, r, now).search, TxtAnnounced(e, txt, Expiry(now, r.ttl)))
  {
    hide NameMatches, InstanceName, Expiry, TxtAnnounced, TxtBytes, NulFree;
    TxtStringsComplete(txt);
    FirstFound(c.search.discovered, r.owner);
    assert s.discovered[0 := e][0 := TxtAnnounced(e, txt, Expiry(now, r.ttl))]
         == s.discovered[0 := TxtAnnounced(e, txt, Expiry(now, r.ttl))];
  }

  lemma AddressStep(t: Search, s: Search, e: Entry, r: Record, ipv4: Ipv4, now: u64)
    requires s.Shaped() && NoEntries(s) && OnlyEntry(s, t, e) && e.inUse && e.hasSrv && e.host == r.owner
    requires 0 < |r.owner| < MAX_NAME
    requires InClass(r) && r.data == A(ipv4) && r.ttl > 0
    ensures StepAddress(t, r, now).discovered
         == s.discovered[0 := AddressAnnounced(e, r.owner, ipv4, Expiry(now, r.ttl))]
  {
    hide NameMatches, Expiry, AddressAnnounced;
    SameName(r.owner);
    assert FindAddress(t.addresses, r.owner) == |t.addresses| && FreeAddress(t.addresses) == 0;
    assert forall i :: 0 < i < |t.discovered| ==> t.discovered[i] == EMPTY_ENTRY;
    Unhosted(r.owner, ipv4, Expiry(now, r.ttl));
    assert StepAddress(t, r, now).discovered
         == MapEntries(t.discovered, f => AddressAnnounced(f, r.owner, ipv4, Expiry(now, r.ttl)));
  }

  lemma Unhosted(host: seq<byte>, ipv4: Ipv4, expires: u64)
    ensures AddressAnnounced(EMPTY_ENTRY, host, ipv4, expires) == EMPTY_ENTRY
  {
  }

  lemma FourPtr(c: Cache, w: Record, x: Record, y: Record, z: Record, now: u64)
    ensures FoldPtr(c, [w, x, y, z], now) == StepPtr(StepPtr(StepPtr(StepPtr(c, w, now), x, now), y, now), z, now)
  {
    hide StepPtr;
    assert [w, x, y, z][1..] == [x, y, z] && [x, y, z][1..] == [y, z] && [y, z][1..] == [z] && [z][1..] == [];
    var c1 := StepPtr(c, w, now);
    var c2 := StepPtr(c1, x, now);
    var c3 := StepPtr(c2, y, now);
    assert FoldPtr(c, [w, x, y, z], now)
         == FoldPtr(c1, [x, y, z], now)
         == FoldPtr(c2, [y, z], now)
         == FoldPtr(c3, [z], now);
  }

  lemma FourService(c: Cache, w: Record, x: Record, y: Record, z: Record, now: u64)
    ensures FoldService(c, [w, x, y, z], now)
         == StepService(StepService(StepService(StepService(c, w, now), x, now), y, now), z, now)
  {
    hide StepService;
    assert [w, x, y, z][1..] == [x, y, z] && [x, y, z][1..] == [y, z] && [y, z][1..] == [z] && [z][1..] == [];
    var c1 := StepService(c, w, now);
    var c2 := StepService(c1, x, now);
    var c3 := StepService(c2, y, now);
    assert FoldService(c, [w, x, y, z], now)
         == FoldService(c1, [x, y, z], now)
         == FoldService(c2, [y, z], now)
         == FoldService(c3, [z], now);
  }

  lemma FourAddress(s: Search, w: Record, x: Record, y: Record, z: Record, now: u64)
    ensures FoldAddress(s, [w, x, y, z], now)
         == StepAddress(StepAddress(StepAddress(StepAddress(s, w, now), x, now), y, now), z, now)
  {
    hide StepAddress;
    assert [w, x, y, z][1..] == [x, y, z] && [x, y, z][1..] == [y, z] && [y, z][1..] == [z] && [z][1..] == [];
    var s1 := StepAddress(s, w, now);
    var s2 := StepAddress(s1, x, now);
    var s3 := StepAddress(s2, y, now);
    assert FoldAddress(s, [w, x, y, z], now)
         == FoldAddress(s1, [x, y, z], now)
         == FoldAddress(s2, [y, z], now)
         == FoldAddress(s3, [z], now);
  }

  /** The entry an announcement makes. */
  function AnnouncedEntry(c: Search, s: Service, token: nat, expires: u64): Entry
    requires ServiceValid(s)
  {
    NewEntry(s, token).(changes := 4, hasPtr := true, ptrExpires := expires, hasSrv := true, srvExpires := expires,
                        port := EffectivePort(c, s.port), host := HostText(s), hasTxt := true, txtExpires := expires,
                        txt := s.txt,
                        hasIpv4 := true, aExpires := expires, ipv4 := s.ipv4)
  }

  /** The entry once all four records have been applied; no follow-up query is due for it. */
  lemma EntryInSteps(c: Search, s: Service, token: nat, expires: u64, now: u64)
    requires ServiceValid(s)
    ensures var e1 := NewEntry(s, token).(changes := 1, hasPtr := true, ptrExpires := expires);
            var e2 := e1.(changes := e1.changes + 1,
                          endpointChanged := e1.endpointChanged || (e1.hasSrv && e1.port != EffectivePort(c, s.port)),
                          port := EffectivePort(c, s.port), host := HostText(s), hasSrv := true, srvExpires := expires);
            var e3 := TxtAnnounced(e2, s.txt, expires);
            FollowedUp(AddressAnnounced(e3, HostText(s), s.ipv4, expires), now) == AnnouncedEntry(c, s, token, expires)
  {
    hide NameMatches, InstanceText, HostText, EffectivePort;
    SameName(HostText(s));
  }

  lemma PtrOnly(c: Cache, w: Record, v: Record, t: Record, a: Record, now: u64)
    requires v.data.Srv? && t.data.Txt? && a.data.A?
    ensures FoldPtr(c, [w, v, t, a], now) == StepPtr(c, w, now)
  {
    FourPtr(c, w, v, t, a, now);
  }

  lemma ServiceOnly(c: Cache, w: Record, v: Record, t: Record, a: Record, now: u64)
    requires w.data.Ptr? && v.data.Srv? && t.data.Txt? && a.data.A?
    ensures FoldService(c, [w, v, t, a], now) == StepService(StepService(c, v, now), t, now)
  {
    hide FoldService, AcceptedTxt, SrvApplied, TxtAnnounced, ServiceWithdrawn, FindEntry, AllocateEntry, NameMatches;
    FourService(c, w, v, t, a, now);
  }

  lemma AddressOnly(s: Search, w: Record, v: Record, t: Record, a: Record, now: u64)
    requires w.data.Ptr? && v.data.Srv? && t.data.Txt?
    ensures FoldAddress(s, [w, v, t, a], now) == StepAddress(s, a, now)
  {
    hide FoldAddress, AllocateAddress, FindAddress, AddressAnnounced, AddressWithdrawn;
    FourAddress(s, w, v, t, a, now);
  }

  /** The four records of an announcement, whatever they are named, on a search without entries. */
  lemma AppliedInSteps(c: Cache, s: Service, w: Record, v: Record, t: Record, a: Record, ttl: u32, now: u64)
    requires Buildable(s) && Parseable(s) && Acceptable(s) && ttl > 0
    requires c.search.Shaped() && NoEntries(c.search) && NameMatches(c.search.serviceFqdn, ServiceName(s))
    requires InClass(w) && w.data == Ptr(InstanceText(s)) && w.owner == ServiceName(s) && w.ttl == ttl
    requires InClass(v) && v.data == Srv(0, 0, s.port, HostText(s)) && v.owner == InstanceText(s) && v.ttl == ttl
    requires InClass(t) && t.data == Txt(TxtBytes(s.txt), |s.txt|) && t.owner == InstanceText(s) && t.ttl == ttl
    requires InClass(a) && a.data == A(s.ipv4) && a.owner == HostText(s) && a.ttl == ttl
    ensures PacketApplied(c, [w, v, t, a], now).discovered
         == c.search.discovered[0 := AnnouncedEntry(c.search, s, c.nextToken, Expiry(now, ttl))]
  {
    NamesFit(s, c.search.serviceFqdn);
    PtrStep(c, s, w, now);
    PtrOnly(c, w, v, t, a, now);
    hide NameMatches, ServiceName, InstanceText, HostText, Expiry, EffectivePort, TxtBytes, TxtLength, Parseable,
         Buildable, StepPtr, StepService, StepAddress, FoldPtr, FoldService, FoldAddress, TxtAnnounced,
         AddressAnnounced, AnnouncedEntry, FollowedUp;
    var x, c1 := Expiry(now, ttl), StepPtr(c, w, now);
    var e1 := NewEntry(s, c.nextToken).(changes := 1, hasPtr := true, ptrExpires := x);
    SrvStep(c1, c.search, e1, v, s.port, HostText(s), now);
    var c2 := StepService(c1, v, now);
    var e2 := c2.search.discovered[0];
    TxtStep(c2, c.search, e2, t, s.txt, now);
    ServiceOnly(c1, w, v, t, a, now);
    var c3 := StepService(c2, t, now);
    TxtKeepsHost(e2, s.txt, x);
    AddressOnly(c3.search, w, v, t, a, now);
    AddressStep(c3.search, c.search, TxtAnnounced(e2, s.txt, x), a, s.ipv4, now);
    EntryInSteps(c.search, s, c.nextToken, x, now);
    EmptyNotFollowed(now);
  }

  lemma TxtKeepsHost(e: Entry, txt: seq<seq<byte>>, expires: u64)
    ensures var f := TxtAnnounced(e, txt, expires); f.inUse == e.inUse && f.hasSrv == e.hasSrv && f.host == e.host
  {
  }

  lemma EmptyNotFollowed(now: u64)
    ensures FollowedUp(EMPTY_ENTRY, now) == EMPTY_ENTRY
  {
  }

  /** An announcement of a service, built by the response builder and read back by the parser, gives an empty search for
      that service exactly one entry: complete, and with the published name, host, port, address and TXT data. */
  lemma AnnouncementCompletes(c: Cache, s: Service, o: ResponseOptions, now: u64)
    requires Buildable(s) && Terminated(s) && Parseable(s) && Acceptable(s) && !o.goodbye && o.ttl > 0
    requires c.search.Shaped() && NoEntries(c.search) && NameMatches(c.search.serviceFqdn, ServiceName(s))
    ensures ParseAll(ServicePacket(s, o)).Success?
    ensures var t := PacketApplied(c, Bounded(ParseAll(ServicePacket(s, o)).value.0).records, now);
            && t.discovered == c.search.discovered[0 := AnnouncedEntry(c.search, s, c.nextToken, Expiry(now, o.ttl))]
            && Shows(t.discovered[0], s, EffectivePort(c.search, s.port))
  {
    ServiceRoundTrip(s, o);
    hide ServicePacket, ParseAll, NameMatches, ServiceName, InstanceText, HostText, Expiry, EffectivePort, TxtBytes,
         TxtLength, Parseable, Buildable, JoinedName, PacketApplied;
    var rs := ExpectedRecords(s, o);
    assert rs == [rs[0], rs[1], rs[2], rs[3]];
    AppliedInSteps(c, s, rs[0], rs[1], rs[2], rs[3], o.ttl, now);
  }

  // ---------- Announcements to any search ----------

  /** The entry an announcement of a service reaches: the one of that name, or else the first free one. */
  function EntryFor(d: seq<Entry>, name: seq<byte>): (i: nat)
    ensures i <= |d|
  {
    if FindEntry(d, name) < |d| then FindEntry(d, name) else FreeEntry(d)
  }

  /** What an announced service looks like in the caches. */
  predicate Announced(c: Search, f: Entry, s: Service, expires: u64)
    requires ServiceValid(s)
  {
    && f.inUse && !f.remove && f.Complete() && NameMatches(f.fqdn, InstanceText(s))
    && f.host == HostText(s) && f.port == EffectivePort(c, s.port) && f.ipv4 == s.ipv4 && f.txt == s.txt
    && f.ptrExpires == f.srvExpires == f.txtExpires == f.aExpires == expires
  }

  lemma PtrReaches(c: Cache, s: Service, r: Record, now: u64)
    requires Buildable(s) && Parseable(s) && NameMatches(c.search.serviceFqdn, ServiceName(s))
    requires EntryFor(c.search.discovered, InstanceText(s)) < |c.search.discovered|
    requires InClass(r) && r.data == Ptr(InstanceText(s)) && r.owner == ServiceName(s) && r.ttl > 0
    ensures var i, t := EntryFor(c.search.discovered, InstanceText(s)), StepPtr(c, r, now).search;
            && SameFrame(c.search, t) && t.discovered[i].inUse && !t.discovered[i].remove && t.discovered[i].hasPtr
            && NameMatches(t.discovered[i].fqdn, InstanceText(s)) && t.discovered[i].ptrExpires == Expiry(now, r.ttl)
  {
    hide Fold, ServiceName, InstanceText, HostText, Expiry, InstanceName, Parseable, Buildable, WithEntry, FindEntry,
         FreeEntry;
    BuildableValid(s);
    NamesFit(s, c.search.serviceFqdn);
    var (c', i) := AllocateEntry(c, InstanceText(s));
    var e := c'.search.discovered[i];
    StoredService(c'.search, c'.search, i,
                  e.(changes := e.changes + 1, hasPtr := true, ptrExpires := Expiry(now, r.ttl), remove := false));
    AllocatedFrame(c, InstanceText(s));
  }

  lemma AllocatedFrame(c: Cache, name: seq<byte>)
    ensures SameFrame(c.search, AllocateEntry(c, name).0.search)
  {
    hide NameMatches, InstanceName, FindEntry, FreeEntry;
  }

  lemma SrvReaches(s: Search, f: Entry, r: Record, now: u64)
    requires r.data.Srv? && r.ttl > 0
    ensures var h := ServiceOn(s, f, r, now);
            && h == f.(changes := h.changes, endpointChanged := h.endpointChanged, hasIpv4 := h.hasIpv4, ipv4 := h.ipv4,
                       aExpires := h.aExpires, nextAQuery := h.nextAQuery, port := EffectivePort(s, r.data.port),
                       host := r.data.target, hasSrv := true, srvExpires := Expiry(now, r.ttl))
  {
    hide NameMatches, EffectivePort, Expiry, CachedAddress, SrvAnnounced, CachedAddressApplied;
    SrvFieldsOnly(f, EffectivePort(s, r.data.port), r.data.target, Expiry(now, r.ttl),
                  CachedAddress(s.addresses, r.data.target, now));
  }

  lemma SrvFieldsOnly(f: Entry, port: u16, target: seq<byte>, expires: u64, cached: Option<Address>)
    ensures var h := CachedAddressApplied(SrvAnnounced(f, port, target, expires), cached);
            h == f.(changes := h.changes, endpointChanged := h.endpointChanged, hasIpv4 := h.hasIpv4, ipv4 := h.ipv4,
                    aExpires := h.aExpires, nextAQuery := h.nextAQuery, port := port, host := target, hasSrv := true,
                    srvExpires := expires)
  {
    hide NameMatches;
  }

  lemma TxtReaches(s: Search, f: Entry, r: Record, txt: seq<seq<byte>>, now: u64)
    requires |txt| <= MAX_TXT_RECORDS && forall i :: 0 <= i < |txt| ==> NulFree(txt[i]) && |txt[i]| <= 255
    requires r.data == Txt(TxtBytes(txt), |txt|) && r.ttl > 0
    ensures var h := ServiceOn(s, f, r, now);
            h == f.(changes := f.changes + 1, txtChanged := h.txtChanged, txt := txt, hasTxt := true,
                    txtExpires := Expiry(now, r.ttl))
  {
    hide Expiry, TxtBytes, NulFree;
    TxtStringsComplete(txt);
  }

  lemma AddressReaches(s: Search, i: nat, r: Record, ipv4: Ipv4, now: u64)
    requires i < |s.discovered| && s.discovered[i].inUse && s.discovered[i].hasSrv && s.discovered[i].host == r.owner
    requires AllocateAddress(s.addresses, r.owner).1 < |s.addresses|
    requires InClass(r) && r.data == A(ipv4) && r.ttl > 0
    ensures var t := StepAddress(s, r, now);
            && |t.discovered| == |s.discovered| && t.serviceType == s.serviceType && t.domain == s.domain
            && t.discovered[i] == AddressAnnounced(s.discovered[i], r.owner, ipv4, Expiry(now, r.ttl))
            && HostedBy(s.discovered[i], r.owner)
  {
    hide NameMatches, AllocateAddress, Expiry, AddressAnnounced;
    SameName(r.owner);
  }

  /** The four records on the entry. */
  lemma RecordsReach(c: Cache, s: Service, w: Record, v: Record, x: Record, a: Record, now: u64)
    requires Buildable(s) && Parseable(s) && Acceptable(s) && CacheOk(c.search, now)
    requires NameMatches(c.search.serviceFqdn, ServiceName(s)) && w.ttl == v.ttl == x.ttl == a.ttl > 0
    requires EntryFor(c.search.discovered, InstanceText(s)) < |c.search.discovered|
    requires AllocateAddress(c.search.addresses, HostText(s)).1 < |c.search.addresses|
    requires InClass(w) && w.data == Ptr(InstanceText(s)) && w.owner == ServiceName(s)
    requires InClass(v) && v.data == Srv(0, 0, s.port, HostText(s)) && v.owner == InstanceText(s)
    requires InClass(x) && x.data == Txt(TxtBytes(s.txt), |s.txt|) && x.owner == InstanceText(s)
    requires InClass(a) && a.data == A(s.ipv4) && a.owner == HostText(s)
    ensures var i, t := EntryFor(c.search.discovered, InstanceText(s)), PacketApplied(c, [w, v, x, a], now);
            && |t.discovered| == |c.search.discovered| && CacheOk(t, now)
            && t.serviceType == c.search.serviceType && t.domain == c.search.domain
            && Announced(c.search, t.discovered[i], s, Expiry(now, w.ttl))
  {
    hide NameMatches, ServiceName, InstanceText, HostText, Expiry, EffectivePort, TxtBytes, TxtLength, Parseable,
         Buildable, CacheOk, StepPtr, StepService, StepAddress, FoldPtr, FoldService, FoldAddress, AddressAnnounced,
         FollowedUp, ServiceOn, EntryFor, AllocateAddress, HostedBy, Acceptable, Announced, NulFree;
    BuildableValid(s);
    var i := EntryFor(c.search.discovered, InstanceText(s));
    PtrReaches(c, s, w, now);
    PtrOnly(c, w, v, x, a, now);
    PtrKeeps(c, w, now);
    var c1 := StepPtr(c, w, now);
    ServiceOnly(c1, w, v, x, a, now);
    CacheDistinct(c1.search, now);
    ServiceStepOn(c1, i, v, now);
    SrvReaches(c1.search, c1.search.discovered[i], v, now);
    ServiceKeeps(c1, v, now);
    var c2 := StepService(c1, v, now);
    CacheDistinct(c2.search, now);
    ServiceStepOn(c2, i, x, now);
    AcceptableStrings(s);
    TxtReaches(c2.search, c2.search.discovered[i], x, s.txt, now);
    ServiceKeeps(c2, x, now);
    var c3 := StepService(c2, x, now);
    AddressOnly(c3.search, w, v, x, a, now);
    AddressReaches(c3.search, i, a, s.ipv4, now);
    AddressKeeps(c3.search, a, now);
    var t := StepAddress(c3.search, a, now);
    FollowUpKeeps(t, now, now);
    SamePort(c.search, c1.search, s.port);
    AnnouncedAtLast(c.search, c3.search.discovered[i], s, Expiry(now, w.ttl), now);
  }

  lemma BuildableValid(s: Service)
    requires Buildable(s)
    ensures ServiceValid(s)
  {
  }

  lemma CacheDistinct(s: Search, now: u64)
    requires CacheOk(s, now)
    ensures DistinctNames(s.discovered)
  {
  }

  lemma AcceptableStrings(s: Service)
    requires Acceptable(s) && Buildable(s)
    ensures |s.txt| <= MAX_TXT_RECORDS && forall i :: 0 <= i < |s.txt| ==> NulFree(s.txt[i]) && |s.txt[i]| <= 255
  {
  }

  lemma SamePort(s: Search, t: Search, port: u16)
    requires SameFrame(s, t)
    ensures EffectivePort(t, port) == EffectivePort(s, port)
  {
  }

  lemma AnnouncedAtLast(c: Search, f: Entry, s: Service, expires: u64, now: u64)
    requires ServiceValid(s) && HostedBy(f, HostText(s))
    requires f.inUse && !f.remove && f.hasPtr && f.hasSrv && f.hasTxt && NameMatches(f.fqdn, InstanceText(s))
    requires f.host == HostText(s) && f.port == EffectivePort(c, s.port) && f.txt == s.txt
    requires f.ptrExpires == f.srvExpires == f.txtExpires == expires
    ensures Announced(c, FollowedUp(AddressAnnounced(f, HostText(s), s.ipv4, expires), now), s, expires)
  {
    hide NameMatches, ServiceName, InstanceText, HostText, EffectivePort;
  }

  /** An announcement received by any search for the service with room for it: its entry is complete and holds what was
      published, until the same time for all records, and the caches stay in order. */
  lemma AnnouncementUpdates(c: Cache, s: Service, o: ResponseOptions, now: u64)
    requires Buildable(s) && Terminated(s) && Parseable(s) && Acceptable(s) && !o.goodbye && o.ttl > 0
    requires CacheOk(c.search, now) && NameMatches(c.search.serviceFqdn, ServiceName(s))
    requires EntryFor(c.search.discovered, InstanceText(s)) < |c.search.discovered|
    requires AllocateAddress(c.search.addresses, HostText(s)).1 < |c.search.addresses|
    ensures ParseAll(ServicePacket(s, o)).Success?
    ensures var i := EntryFor(c.search.discovered, InstanceText(s));
            var t := PacketApplied(c, Bounded(ParseAll(ServicePacket(s, o)).value.0).records, now);
            && |t.discovered| == |c.search.discovered| && CacheOk(t, now)
            && t.serviceType == c.search.serviceType && t.domain == c.search.domain
            && Announced(c.search, t.discovered[i], s, Expiry(now, o.ttl))
  {
    ServiceRoundTrip(s, o);
    hide ServicePacket, ParseAll, NameMatches, ServiceName, InstanceText, HostText, Expiry, EffectivePort, TxtBytes,
         TxtLength, Parseable, Buildable, JoinedName, PacketApplied, CacheOk, EntryFor, AllocateAddress, Announced;
    var rs := ExpectedRecords(s, o);
    assert rs == [rs[0], rs[1], rs[2], rs[3]];
    RecordsReach(c, s, rs[0], rs[1], rs[2], rs[3], now);
  }

  // ---------- Goodbyes ----------

  /** The only entry of a name is the one that is found. */
  lemma TheEntryFound(s: Search, i: nat, name: seq<byte>)
    requires DistinctNames(s.discovered) && i < |s.discovered| && s.discovered[i].inUse
    requires NameMatches(s.discovered[i].fqdn, name)
    ensures FindEntry(s.discovered, name) == i
  {
    assert EntryNamed(s.discovered[i], name);
    var k := FindEntry(s.discovered, name);
    if k < i { assert NameMatches(s.discovered[k].fqdn, s.discovered[i].fqdn); }
  }

  /** Entry i is marked for removal and has lost the records a step takes away; names are as before. */
  ghost predicate Marked(s: Search, t: Search, i: nat, name: seq<byte>) {
    && |t.discovered| == |s.discovered| && DistinctNames(t.discovered) && i < |t.discovered|
    && t.discovered[i].inUse && t.discovered[i].remove && NameMatches(t.discovered[i].fqdn, name)
  }

  lemma StoredDistinct(s: Search, i: nat, e: Entry)
    requires DistinctNames(s.discovered) && i < |s.discovered| && s.discovered[i].inUse
    requires e.fqdn == s.discovered[i].fqdn
    ensures DistinctNames(WithEntry(s, i, e).discovered)
  {
  }

  lemma PtrWithdrawn(c: Cache, i: nat, r: Record, now: u64)
    requires DistinctNames(c.search.discovered) && i < |c.search.discovered| && c.search.discovered[i].inUse
    requires r.data.Ptr? && InClass(r) && r.ttl == 0 && NameMatches(r.owner, c.search.serviceFqdn)
    requires NameMatches(c.search.discovered[i].fqdn, r.data.target)
    ensures Marked(c.search, StepPtr(c, r, now).search, i, r.data.target)
    ensures !StepPtr(c, r, now).search.discovered[i].hasPtr
  {
    TheEntryFound(c.search, i, r.data.target);
    hide NameMatches, FindEntry, AllocateEntry;
    StoredDistinct(c.search, i, StepPtr(c, r, now).search.discovered[i]);
  }

  lemma ServiceWithdrawnFrom(s: Search, c: Cache, i: nat, r: Record, now: u64)
    requires Marked(s, c.search, i, r.owner) && InClass(r) && r.ttl == 0 && (r.data.Srv? || r.data.Txt?)
    ensures var t := StepService(c, r, now).search;
            && Marked(s, t, i, r.owner) && t.discovered[i] == ServiceWithdrawn(c.search.discovered[i], r.data.Srv?)
  {
    TheEntryFound(c.search, i, r.owner);
    hide NameMatches, FindEntry, AllocateEntry, InstanceName;
    StoredDistinct(c.search, i, ServiceWithdrawn(c.search.discovered[i], r.data.Srv?));
  }

  /** A goodbye for a service marks its entry and takes its PTR, SRV and TXT records; the dispatch then removes it. */
  lemma GoodbyeRemoves(c: Cache, s: Service, o: ResponseOptions, i: nat, token: Option<nat>, now: u64)
    requires Buildable(s) && Terminated(s) && Parseable(s) && o.goodbye
    requires DistinctNames(c.search.discovered) && i < |c.search.discovered| && c.search.discovered[i].inUse
    requires NameMatches(ServiceName(s), c.search.serviceFqdn)
    requires NameMatches(c.search.discovered[i].fqdn, InstanceText(s))
    ensures ParseAll(ServicePacket(s, o)).Success?
    ensures var t := PacketApplied(c, Bounded(ParseAll(ServicePacket(s, o)).value.0).records, now);
            && i < |t.discovered| && t.discovered[i].remove
            && !t.discovered[i].hasPtr && !t.discovered[i].hasSrv && !t.discovered[i].hasTxt
            && DispatchedEntry(t.discovered[i], token) == EMPTY_ENTRY
  {
    ServiceRoundTrip(s, o);
    var rs := ExpectedRecords(s, o);
    var w, v, x, a := rs[0], rs[1], rs[2], rs[3];
    assert rs == [w, v, x, a];
    PtrWithdrawn(c, i, w, now);
    PtrOnly(c, w, v, x, a, now);
    hide ServicePacket, ParseAll, NameMatches, ServiceName, InstanceText, HostText, TxtBytes, TxtLength, Parseable,
         Buildable, JoinedName, StepPtr, StepService, FoldPtr, FoldService, FoldAddress, FindAddress;
    var c1 := StepPtr(c, w, now);
    ServiceWithdrawnFrom(c.search, c1, i, v, now);
    var c2 := StepService(c1, v, now);
    ServiceWithdrawnFrom(c.search, c2, i, x, now);
    var c3 := StepService(c2, x, now);
    ServiceOnly(c1, w, v, x, a, now);
    AddressOnly(c3.search, w, v, x, a, now);
    assert PacketApplied(c, rs, now) == FollowedUpSearch(StepAddress(c3.search, a, now), now);
  }
}
