/** Received packets after which an entry has an address that no cache holds: the SRV record goes, the address goes
    while it is away, and the SRV record returns. */
module ZeroconfStale {
  import opened Options
  import opened WireNames
  import opened WireWriter
  import opened WireParse
  import opened WireBuild
  import opened WireRoundTrip
  import opened ZeroconfCache
  import opened ZeroconfTokens
  import opened ZeroconfSteps
  import opened ZeroconfEntry
  import opened ZeroconfAnnouncement
  import opened ZeroconfBacked
  import opened ZeroconfCounterexample

  // ---------- From assumed states ----------

  /** An address withdrawn while the SRV is away comes back with it: the entry is complete again although no address is
      cached for its host. */
  lemma StaleAddressReturns(s: Search, i: nat, a: Record, srv: Record, now: u64)
    requires CacheOk(s, now) && i < |s.discovered|
    requires var e := s.discovered[i]; e.inUse && !e.hasSrv && e.hasPtr && e.hasTxt && e.hasIpv4
    requires a.data.A? && InClass(a) && a.ttl == 0 && NameMatches(a.owner, s.discovered[i].host)
    requires srv.data.Srv? && InClass(srv) && srv.ttl > 0 && srv.owner == s.discovered[i].fqdn
    requires srv.data.target == s.discovered[i].host
    ensures var t := StepService(Cache(StepAddress(s, a, now), 1), srv, now).search;
            && t.discovered[i].Complete() && t.discovered[i].ipv4 == s.discovered[i].ipv4
            && FindAddress(t.addresses, t.discovered[i].host) == |t.addresses|
  {
    hide CacheOk, StepAddress, StepService, Fold, SrvApplied, FindAddress;
    var m := StepAddress(s, a, now);
    AddressKeeps(s, a, now);
    WithdrawnElsewhere(s, i, a, now);
    CacheParts(s, now);
    CacheParts(m, now);
    Uncached(s.addresses, a.owner);
    SameFound(m.addresses, a.owner, s.discovered[i].host);
    ServiceStepOn(Cache(m, 1), i, srv, now);
    Returns(m, m.discovered[i], srv.data.port, srv.data.target, now, srv.ttl);
  }

  /** So does one whose cached copy expires first, as it does when a shorter life was announced while the SRV was
      away. */
  lemma ExpiredAddressReturns(s: Search, i: nat, srv: Record, at: u64, now: u64)
    requires CacheOk(s, now) && i < |s.discovered| && at <= now
    requires var e := s.discovered[i];
             e.inUse && !e.hasSrv && e.hasPtr && e.hasTxt && e.hasIpv4
             && at < e.ptrExpires && at < e.txtExpires && at < e.aExpires
    requires var k := FindAddress(s.addresses, s.discovered[i].host);
             k < |s.addresses| && s.addresses[k].expires <= at
    requires srv.data.Srv? && InClass(srv) && srv.ttl > 0 && srv.owner == s.discovered[i].fqdn
    requires srv.data.target == s.discovered[i].host
    ensures var t := StepService(Cache(ExpiredSearch(s, at), 1), srv, now).search;
            && t.discovered[i].Complete() && t.discovered[i].ipv4 == s.discovered[i].ipv4
            && FindAddress(t.addresses, t.discovered[i].host) == |t.addresses|
  {
    hide CacheOk, ExpiredAddress, StepService, Fold, SrvApplied, FindAddress;
    var m, host := ExpiredSearch(s, at), s.discovered[i].host;
    ExpiryKeeps(s, at, now);
    CacheParts(s, now);
    CacheParts(m, now);
    assert m.addresses == ExpiredTable(s.addresses, at);
    ExpiredUncached(s.addresses, host, at);
    ServiceStepOn(Cache(m, 1), i, srv, now);
    Returns(m, m.discovered[i], srv.data.port, srv.data.target, now, srv.ttl);
  }

  lemma WithdrawnElsewhere(s: Search, i: nat, a: Record, now: u64)
    requires i < |s.discovered| && !s.discovered[i].hasSrv && a.data.A? && InClass(a) && a.ttl == 0
    ensures var t, k := StepAddress(s, a, now), FindAddress(s.addresses, a.owner);
            && |t.discovered| == |s.discovered| && t.discovered[i] == s.discovered[i]
            && t.addresses == if k < |s.addresses| then s.addresses[k := EMPTY_ADDRESS] else s.addresses
  {
    hide FindAddress, NameMatches;
  }

  /** The SRV record returns to an entry that still has its address, of which the cache knows nothing. */
  lemma Returns(s: Search, e: Entry, port: u16, target: seq<byte>, now: u64, ttl: u32)
    requires e.hasPtr && e.hasTxt && e.hasIpv4 && NameMatches(e.host, target)
    requires FindAddress(s.addresses, target) == |s.addresses|
    ensures var f := SrvApplied(s, e, port, target, now, ttl);
            && f.Complete() && f.ipv4 == e.ipv4 && f.host == target && f.inUse == e.inUse
            && !(f.inUse && Backed(f, s.addresses))
  {
    hide EffectivePort, Expiry, FindAddress, Fold;
  }

  // ---------- The packets ----------

  function PlainA(owner: seq<Label>, ttl: u32, ipv4: Ipv4): seq<byte>
    requires LabelsOk(owner)
  {
    RecordBytes(EncodeName(owner), TYPE_A, CLASS_IN, ttl, ipv4)
  }

  /** The SRV record of a service and the address of its host, both withdrawn. */
  function WithdrawalBytes(s: Service): seq<byte>
    requires Buildable(s) && Parseable(s)
  {
    NameLabels(s);
    TwoAnswers() + PlainSrv(OwnerLabels(s), 0, s.port, TargetLabels(s)) + PlainA(TargetLabels(s), 0, s.ipv4)
  }

  function AddressRecordOf(s: Service, ttl: u32): Record {
    Record(HostText(s), Answer, TYPE_A, CLASS_IN, false, ttl, 4, A(s.ipv4))
  }

  lemma PlainAParses(p: seq<byte>, at: nat, owner: seq<Label>, ttl: u32, ipv4: Ipv4)
    requires LabelsOk(owner) && WireLength(owner) <= MAX_WIRE_NAME && At(p, at, PlainA(owner, ttl, ipv4))
    ensures ParseRecord(p, at, Answer)
         == Success((Record(ReadText(owner), Answer, TYPE_A, CLASS_IN, false, ttl, 4, A(ipv4)),
                     at + WireLength(owner) + 14))
  {
    hide At, NameAt, ParseRecord, HasFields, Spells, EncodeLabels, LabelsOk, BodyLength, CString, Join;
    var data := at + WireLength(owner) + 10;
    RecordFields(p, at, EncodeName(owner), TYPE_A, CLASS_IN, ttl, ipv4);
    SpellsLabels(p, at, owner);
    SpelledNameDecodes(p, at, Literals(|owner|, WireDecode.Root), owner, at + WireLength(owner), 0);
    AddressData(p, data, ipv4);
    RecordParses(p, at, WireLength(owner), ReadText(owner), Answer, TYPE_A, CLASS_IN, ttl, 4, A(ipv4));
  }

  lemma AddressData(p: seq<byte>, data: nat, ipv4: Ipv4)
    requires At(p, data, ipv4)
    ensures ParseData(p, TYPE_A, data, data + 4) == Success(A(ipv4))
  {
  }

  lemma PlainASize(owner: seq<Label>, ttl: u32, ipv4: Ipv4)
    requires LabelsOk(owner)
    ensures |PlainA(owner, ttl, ipv4)| == WireLength(owner) + 14
  {
  }

  lemma WithdrawalReads(s: Service)
    requires Buildable(s) && Terminated(s) && Parseable(s)
    ensures ResponseRecords(WithdrawalBytes(s)) == Some([SrvRecordOf(s, 0, s.port), AddressRecordOf(s, 0)])
  {
    hide At, ParseRecord, ParseAll, ServiceName, CString, Join, BodyLength, PlainSrv, PlainA, U16, DomainLabels, Labels;
    NameLabels(s);
    ServiceTexts(s);
    var owner, host := OwnerLabels(s), TargetLabels(s);
    var first, second := PlainSrv(owner, 0, s.port, host), PlainA(host, 0, s.ipv4);
    var p, o := WithdrawalBytes(s), HEADER_SIZE + WireLength(owner) + 16 + WireLength(host);
    PlainSrvSize(owner, 0, s.port, host);
    PlainASize(host, 0, s.ipv4);
    WholeAt(p);
    AtSplit(p, 0, TwoAnswers() + first, second);
    AtSplit(p, 0, TwoAnswers(), first);
    HeaderReads(p, 0, RESPONSE, 0, 2, 0, 0);
    PlainSrvParses(p, HEADER_SIZE, owner, 0, s.port, host);
    PlainAParses(p, o, host, 0, s.ipv4);
    TwoRecordsParse(p, SrvRecordOf(s, 0, s.port), AddressRecordOf(s, 0), o, |p|);
  }

  // ---------- Receiving them ----------

  lemma TwoPtrs(c: Cache, x: Record, y: Record, now: u64)
    requires !x.data.Ptr? && !y.data.Ptr?
    ensures FoldPtr(c, [x, y], now) == c
  {
    hide StepPtr;
    assert [x, y][1..] == [y] && [y][1..] == [];
    NoPtr(c, x, now);
    NoPtr(c, y, now);
    assert FoldPtr(c, [y], now) == FoldPtr(StepPtr(c, y, now), [], now);
  }

  lemma NoPtr(c: Cache, r: Record, now: u64)
    requires !r.data.Ptr?
    ensures StepPtr(c, r, now) == c
  {
  }

  lemma TwoServices(c: Cache, x: Record, y: Record, now: u64)
    ensures FoldService(c, [x, y], now) == StepService(StepService(c, x, now), y, now)
  {
    hide StepService;
    assert [x, y][1..] == [y] && [y][1..] == [];
    var d := StepService(c, x, now);
    assert FoldService(d, [y], now) == FoldService(StepService(d, y, now), [], now);
  }

  lemma TwoAddresses(s: Search, x: Record, y: Record, now: u64)
    ensures FoldAddress(s, [x, y], now) == StepAddress(StepAddress(s, x, now), y, now)
  {
    hide StepAddress;
    assert [x, y][1..] == [y] && [y][1..] == [];
    var t := StepAddress(s, x, now);
    assert FoldAddress(t, [y], now) == FoldAddress(StepAddress(t, y, now), [], now);
  }

  /** An SRV record about the only entry. */
  lemma ServiceAlone(c: Cache, e: Entry, r: Record, now: u64)
    requires Alone(c.search, e) && e.inUse && r.data.Srv? && InClass(r) && NameMatches(e.fqdn, r.owner)
    ensures StepService(c, r, now) == c.(search := WithEntry(c.search, 0, ServiceOn(c.search, e, r, now)))
    ensures Alone(StepService(c, r, now).search, ServiceOn(c.search, e, r, now))
  {
    hide Fold, SrvApplied, ServiceWithdrawn;
    assert EntryNamed(c.search.discovered[0], r.owner);
    assert FindEntry(c.search.discovered, r.owner) == 0;
  }

  lemma AddressGoneAlone(s: Search, e: Entry, r: Record, now: u64)
    requires Alone(s, e) && r.data.A? && InClass(r) && r.ttl == 0
    ensures var t, k := StepAddress(s, r, now), FindAddress(s.addresses, r.owner);
            && Alone(t, AddressWithdrawn(e, r.owner))
            && t.addresses == (if k < |s.addresses| then s.addresses[k := EMPTY_ADDRESS] else s.addresses)
            && t == s.(discovered := t.discovered, addresses := t.addresses)
  {
    hide FindAddress, NameMatches;
  }

  lemma FollowedAlone(s: Search, e: Entry, now: u64)
    requires Alone(s, e)
    ensures Alone(FollowedUpSearch(s, now), FollowedUp(e, now))
    ensures FollowedUpSearch(s, now) == s.(discovered := FollowedUpSearch(s, now).discovered)
  {
  }

  lemma FollowedOk(s: Search, now: u64)
    requires CacheOk(s, now)
    ensures CacheOk(FollowedUpSearch(s, now), now)
  {
    hide CacheOk;
    FollowUpKeeps(s, now, now);
  }

  /** The entry that is left with its address after the withdrawal. */
  predicate Stranded(e: Entry, f: Entry) {
    && f.inUse && f.hasPtr && f.hasTxt && !f.hasSrv && f.hasIpv4 && !f.remove
    && f.fqdn == e.fqdn && f.host == e.host && f.ipv4 == e.ipv4 && f.notified == e.notified
  }

  lemma StrandedSteps(e: Entry, now: u64, host: seq<byte>)
    requires e.inUse && e.Complete() && !e.remove
    ensures var g := ServiceWithdrawn(e, true);
            && AddressWithdrawn(g, host) == g && Stranded(e, FollowedUp(g, now))
  {
    hide NameMatches;
  }

  /** The withdrawal of both records at once: the SRV record goes first, and so the address stays in the entry. */
  lemma WithdrawalStrands(c: Cache, e: Entry, srv: Record, a: Record, now: u64)
    requires CacheOk(c.search, now) && Alone(c.search, e) && e.inUse && e.Complete() && !e.remove
    requires srv.data.Srv? && InClass(srv) && srv.ttl == 0 && srv.owner == e.fqdn
    requires a.data.A? && InClass(a) && a.ttl == 0 && a.owner == e.host
    ensures var t := PacketApplied(c, [srv, a], now);
            && CacheOk(t, now) && |t.discovered| == MAX_DISCOVERED && Alone(t, t.discovered[0])
            && Stranded(e, t.discovered[0])
            && FindAddress(t.addresses, e.host) == |t.addresses| && t.inUse == c.search.inUse
  {
    hide CacheOk, StepPtr, StepService, StepAddress, Fold, FindAddress, ServiceOn, AddressWithdrawn, FollowedUp,
         FollowedUpSearch, Alone, ServiceWithdrawn;
    TwoPtrs(c, srv, a, now);
    TwoServices(c, srv, a, now);
    ServiceAlone(c, e, srv, now);
    OnWithdrawn(c.search, e, srv, now);
    ServiceKeeps(c, srv, now);
    var v := StepService(c, srv, now);
    NoService(v, a, now);
    TwoAddresses(v.search, srv, a, now);
    NoAddressRecord(v.search, srv, now);
    var g := ServiceWithdrawn(e, true);
    AddressGoneAlone(v.search, g, a, now);
    AddressKeeps(v.search, a, now);
    StrandedSteps(e, now, a.owner);
    CacheParts(v.search, now);
    Uncached(v.search.addresses, a.owner);
    var w := StepAddress(v.search, a, now);
    FollowedAlone(w, g, now);
    FollowedOk(w, now);
    AloneFirst(FollowedUpSearch(w, now), FollowedUp(g, now));
  }

  lemma OnWithdrawn(s: Search, e: Entry, r: Record, now: u64)
    requires r.data.Srv? && r.ttl == 0
    ensures ServiceOn(s, e, r, now) == ServiceWithdrawn(e, true)
  {
    hide ServiceWithdrawn;
  }

  lemma OnAnnounced(s: Search, e: Entry, r: Record, now: u64)
    requires r.data.Srv? && r.ttl > 0
    ensures ServiceOn(s, e, r, now) == SrvApplied(s, e, r.data.port, r.data.target, now, r.ttl)
  {
    hide SrvApplied;
  }

  lemma NoService(c: Cache, r: Record, now: u64)
    requires !r.data.Srv? && !r.data.Txt?
    ensures StepService(c, r, now) == c
  {
  }

  lemma NoAddressRecord(s: Search, r: Record, now: u64)
    requires !r.data.A?
    ensures StepAddress(s, r, now) == s
  {
  }

  lemma AloneFirst(s: Search, e: Entry)
    requires Alone(s, e)
    ensures s.discovered[0] == e && |s.discovered| == MAX_DISCOVERED
  {
  }

  /** The SRV record withdrawn again, which changes nothing that matters, and announced: the address is back. */
  lemma ReturnUnbacked(c: Cache, e: Entry, f: Entry, bye: Record, hello: Record, now: u64)
    requires Alone(c.search, f) && Stranded(e, f) && FindAddress(c.search.addresses, e.host) == |c.search.addresses|
    requires bye.data.Srv? && InClass(bye) && bye.ttl == 0 && bye.owner == e.fqdn
    requires hello.data.Srv? && InClass(hello) && hello.ttl > 0 && hello.owner == e.fqdn && hello.data.target == e.host
    ensures var t := PacketApplied(c, [bye, hello], now);
            && |t.discovered| == MAX_DISCOVERED
            && var g := t.discovered[0];
               && g.inUse && g.Complete() && g.ipv4 == e.ipv4 && FindAddress(t.addresses, g.host) == |t.addresses|
               && !Backed(g, t.addresses)
  {
    hide StepPtr, StepService, StepAddress, Fold, FindAddress, ServiceOn, FollowedUp, FollowedUpSearch, Alone,
         ServiceWithdrawn, SrvApplied, Backed;
    TwoPtrs(c, bye, hello, now);
    TwoServices(c, bye, hello, now);
    StrandedName(e, f);
    ServiceAlone(c, f, bye, now);
    OnWithdrawn(c.search, f, bye, now);
    var v, g := StepService(c, bye, now), ServiceWithdrawn(f, true);
    WithdrawnStranded(e, f);
    StrandedName(e, g);
    ServiceAlone(v, g, hello, now);
    OnAnnounced(v.search, g, hello, now);
    Returns(v.search, g, hello.data.port, hello.data.target, now, hello.ttl);
    var w := StepService(v, hello, now).search;
    TwoAddresses(w, bye, hello, now);
    NoAddressRecord(w, bye, now);
    NoAddressRecord(w, hello, now);
    var h := SrvApplied(v.search, g, hello.data.port, hello.data.target, now, hello.ttl);
    FollowedAlone(w, h, now);
    AloneFirst(FollowedUpSearch(w, now), FollowedUp(h, now));
    FollowedBack(h, now, w.addresses);
  }

  lemma StrandedName(e: Entry, f: Entry)
    requires Stranded(e, f)
    ensures f.inUse && f.fqdn == e.fqdn && f.host == e.host && f.hasPtr && f.hasTxt && f.hasIpv4 && f.ipv4 == e.ipv4
  {
  }

  lemma WithdrawnStranded(e: Entry, f: Entry)
    requires Stranded(e, f)
    ensures Stranded(e, ServiceWithdrawn(f, true))
  {
  }

  lemma FollowedBack(h: Entry, now: u64, a: seq<Address>)
    ensures var f := FollowedUp(h, now);
            && f.inUse == h.inUse && f.Complete() == h.Complete() && f.ipv4 == h.ipv4 && f.host == h.host
            && (Backed(f, a) <==> Backed(h, a))
  {
    hide FindAddress;
  }

  // ---------- From an announcement ----------

  lemma StrandedDispatched(e: Entry, f: Entry, next: nat)
    requires Stranded(e, f)
    ensures Stranded(e.(notified := false), DispatchedEntry(f, TokenAfter(f, next)))
  {
  }

  /** For every service: its announcement, then both records withdrawn, then the SRV record back. The search holds a
      complete entry with an address, and none is cached for its host. */
  lemma StaleAfterAnnouncement(c: Cache, s: Service, o: ResponseOptions, port: u16, ttl: u32, now: u64, later: u64,
                               last: u64)
    requires Buildable(s) && Terminated(s) && Parseable(s) && Acceptable(s) && !o.goodbye && o.ttl > 0
    requires o.headerFlags >= 0x8000 && ttl > 0 && now <= later
    requires c.search.inUse && CacheOk(c.search, now) && NoEntries(c.search)
    requires NameMatches(c.search.serviceFqdn, ServiceName(s))
    ensures var heard, gone := ResponseRecords(ServicePacket(s, o)), ResponseRecords(WithdrawalBytes(s));
            var back := ResponseRecords(RevivalBytes(s, port, ttl));
            && heard.Some? && gone.Some? && back.Some?
            && var d := Dispatched(PacketApplied(c, heard.value, now), c.nextToken + 1);
               var m := Dispatched(PacketApplied(Cache(d, c.nextToken + 1), gone.value, later), c.nextToken + 1);
               var u := PacketApplied(Cache(m, c.nextToken + 2), back.value, last);
               && |u.discovered| == MAX_DISCOVERED
               && var f := u.discovered[0];
                  && f.inUse && f.Complete() && f.ipv4 == s.ipv4 && FindAddress(u.addresses, f.host) == |u.addresses|
                  && !Backed(f, u.addresses)
  {
    hide ServicePacket, RevivalBytes, WithdrawalBytes, ParseAll, PacketApplied, NameMatches, ServiceName, InstanceText,
         HostText, EffectivePort, Parseable, Buildable, CacheOk, NoEntries, Expiry, Dispatched, TxtBytes, TxtLength,
         Terminated, Acceptable, Alone, Stranded, ResponseRecords, DispatchedEntry, Backed, FindAddress, TokenAfter;
    BuildableValid(s);
    EmptyHasRoom(c.search, s, now);
    AnnouncementReads(s, o);
    AnnouncementCompletes(c, s, o, now);
    AnnouncementUpdates(c, s, o, now);
    WithdrawalReads(s);
    RevivalReads(s, port, ttl);
    var t, next := PacketApplied(c, ResponseRecords(ServicePacket(s, o)).value, now), c.nextToken + 1;
    var e := t.discovered[0];
    OneEntry(c.search, t, s, c.nextToken, Expiry(now, o.ttl));
    ShownAddress(c.search, t, s, c.nextToken, Expiry(now, o.ttl));
    DispatchedAlone(t, e, next);
    DispatchedOnce(t, e, next, now);
    ToldStill(e, next);
    var d, f := Dispatched(t, next), DispatchedEntry(e, TokenAfter(e, next));
    LaterKeeps(d, now, later);
    var srv, a := SrvRecordOf(s, 0, s.port), AddressRecordOf(s, 0);
    WithdrawalStrands(Cache(d, next), f, srv, a, later);
    var t' := PacketApplied(Cache(d, next), [srv, a], later);
    var g := t'.discovered[0];
    DispatchedAlone(t', g, next);
    StrandedDispatched(f, g, next);
    SameTable(t', g, next);
    ReturnUnbacked(Cache(Dispatched(t', next), next + 1), f.(notified := false),
                   DispatchedEntry(g, TokenAfter(g, next)), SrvRecordOf(s, 0, port), SrvRecordOf(s, ttl, port), last);
  }

  lemma ShownAddress(c: Search, t: Search, s: Service, token: nat, expires: u64)
    requires c.Shaped() && NoEntries(c) && ServiceValid(s)
    requires t.discovered == c.discovered[0 := AnnouncedEntry(c, s, token, expires)]
    ensures t.discovered[0].ipv4 == s.ipv4
  {
    hide ServiceName, InstanceText, HostText, EffectivePort;
  }

  lemma ToldStill(e: Entry, next: nat)
    requires e.inUse && !e.remove && e.Complete()
    ensures var f := DispatchedEntry(e, TokenAfter(e, next));
            && f.inUse && !f.remove && f.Complete() && f.fqdn == e.fqdn && f.host == e.host && f.ipv4 == e.ipv4
  {
  }

  lemma SameTable(s: Search, e: Entry, next: nat)
    ensures Dispatched(s, next).addresses == s.addresses
  {
  }

  // ---------- One such run, byte by byte ----------

  /** The SRV record of the example and its host's address, both withdrawn. */
  const WITHDRAWAL: seq<byte> :=
    [0, 0, 132, 0, 0, 0, 0, 2, 0, 0, 0, 0]
    + [1, 105, 1, 116, 1, 108, 0, 0, 33, 0, 1, 0, 0, 0, 0, 0, 11, 0, 0, 0, 0, 0, 1, 1, 104, 1, 108, 0]
    + [1, 104, 1, 108, 0, 0, 1, 0, 1, 0, 0, 0, 0, 0, 4, 10, 0, 0, 1]

  lemma WithdrawalIs()
    ensures Buildable(EXAMPLE) && Parseable(EXAMPLE) && WithdrawalBytes(EXAMPLE) == WITHDRAWAL
  {
    hide Labels, Split, EncodeName, JoinedName, StripTrailingDots, StripLeadingDots, Parseable, Buildable;
    ExampleNames();
    ExampleFits();
    ExampleEncodings();
    assert OwnerLabels(EXAMPLE) == [[105], [116], [108]] && TargetLabels(EXAMPLE) == [[104], [108]];
    NameLabels(EXAMPLE);
    WithdrawalRecords([[105], [116], [108]], [[104], [108]]);
    ExampleFields();
    assert TwoAnswers() == [0, 0, 132, 0, 0, 0, 0, 2, 0, 0, 0, 0];
  }

  lemma WithdrawalRecords(owner: seq<Label>, host: seq<Label>)
    requires LabelsOk(owner) && LabelsOk(host) && WireLength(host) <= MAX_WIRE_NAME
    requires EncodeName(owner) == [1, 105, 1, 116, 1, 108, 0] && EncodeName(host) == [1, 104, 1, 108, 0]
    ensures PlainSrv(owner, 0, 1, host)
         == [1, 105, 1, 116, 1, 108, 0, 0, 33, 0, 1, 0, 0, 0, 0, 0, 11, 0, 0, 0, 0, 0, 1, 1, 104, 1, 108, 0]
    ensures PlainA(host, 0, [10, 0, 0, 1]) == [1, 104, 1, 108, 0, 0, 1, 0, 1, 0, 0, 0, 0, 0, 4, 10, 0, 0, 1]
  {
    hide EncodeName, U16, RecordHeader, LabelsOk, WireLength;
    ExampleFields();
    AddressHeader();
    assert PlainSrvData(1, host) == [0, 0, 0, 0, 0, 1, 1, 104, 1, 108, 0];
    assert PlainSrv(owner, 0, 1, host)
         == EncodeName(owner) + [0, 33, 0, 1, 0, 0, 0, 0] + [0, 11] + PlainSrvData(1, host);
    assert PlainA(host, 0, [10, 0, 0, 1]) == EncodeName(host) + [0, 1, 0, 1, 0, 0, 0, 0] + [0, 4] + [10, 0, 0, 1];
  }

  lemma AddressHeader()
    ensures RecordHeader(TYPE_A, CLASS_IN, 0) == [0, 1, 0, 1, 0, 0, 0, 0]
  {
    assert U32(0) == [0, 0, 0, 0] && U16(CLASS_IN) == [0, 1] && U16(TYPE_A) == [0, 1];
  }

  /** A search for "t.l" hears three packets. Afterwards it reports "i" at 10.0.0.1, an address that was withdrawn and
      that it has not cached. */
  lemma ExampleStale(now: u64, later: u64, last: u64)
    requires now <= later
    ensures var heard, gone := ResponseRecords(ANNOUNCEMENT), ResponseRecords(WITHDRAWAL);
            var back := ResponseRecords(REVIVAL);
            && heard.Some? && gone.Some? && back.Some?
            && var d := Dispatched(PacketApplied(Cache(ExampleSearch(), 1), heard.value, now), 2);
               var m := Dispatched(PacketApplied(Cache(d, 2), gone.value, later), 2);
               var u := PacketApplied(Cache(m, 3), back.value, last);
               && |u.discovered| == MAX_DISCOVERED
               && var f := u.discovered[0];
                  && f.Complete() && f.ipv4 == [10, 0, 0, 1] && FindAddress(u.addresses, f.host) == |u.addresses|
  {
    hide PacketApplied, ResponseRecords, Dispatched, ServicePacket, RevivalBytes, WithdrawalBytes, Parseable, Buildable,
         NameMatches, FindAddress, Backed;
    AnnouncementIs();
    RevivalIs();
    WithdrawalIs();
    ExampleFits();
    ExampleSearchOk(now);
    StaleAfterAnnouncement(Cache(ExampleSearch(), 1), EXAMPLE, OPTIONS, 2, 120, now, later, last);
  }
}
