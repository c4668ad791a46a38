/** A packet, byte by byte, that leaves the guest with a port the service no longer has. */
module ZeroconfCounterexample {
  import opened Options
  import opened WireNames
  import opened WireWriter
  import opened WireParse
  import opened WireBuild
  import opened WireRoundTrip
  import opened ZeroconfCache
  import opened ZeroconfGuest
  import opened ZeroconfTokens
  import opened ZeroconfSteps
  import opened ZeroconfScene
  import opened ZeroconfAnnouncement
  import opened ZeroconfRevival

  const RESPONSE: u16 := 0x8400

  // ---------- The packet ----------

  function OwnerLabels(s: Service): seq<Label>
    requires Buildable(s)
  {
    [s.instance] + Labels(ServiceName(s))
  }

  function TargetLabels(s: Service): seq<Label> {
    [s.host] + DomainLabels(s)
  }

  function PlainSrvData(port: u16, host: seq<Label>): seq<byte>
    requires LabelsOk(host)
  {
    U16(0) + U16(0) + U16(port) + EncodeName(host)
  }

  function PlainSrv(owner: seq<Label>, ttl: u32, port: u16, host: seq<Label>): seq<byte>
    requires LabelsOk(owner) && LabelsOk(host) && WireLength(host) <= MAX_WIRE_NAME
  {
    RecordBytes(EncodeName(owner), TYPE_SRV, CLASS_IN, ttl, PlainSrvData(port, host))
  }

  function TwoAnswers(): seq<byte> {
    U16(0) + U16(RESPONSE) + U16(0) + U16(2) + U16(0) + U16(0)
  }

  /** The SRV record of a service withdrawn, and announced again on a port. */
  function RevivalBytes(s: Service, port: u16, ttl: u32): seq<byte>
    requires Buildable(s) && Parseable(s)
  {
    NameLabels(s);
    TwoAnswers() + PlainSrv(OwnerLabels(s), 0, port, TargetLabels(s))
    + PlainSrv(OwnerLabels(s), ttl, port, TargetLabels(s))
  }

  lemma NameLabels(s: Service)
    requires Buildable(s)
    ensures LabelsOk(OwnerLabels(s)) && LabelsOk(TargetLabels(s))
    ensures WireLength(OwnerLabels(s)) == 1 + |s.instance| + WireLength(Labels(ServiceName(s)))
    ensures WireLength(TargetLabels(s)) == 1 + |s.host| + WireLength(DomainLabels(s))
  {
    ServiceLabels(s);
    LabelsOkConcat(Labels(s.serviceType), DomainLabels(s));
    assert OwnerLabels(s)[1..] == Labels(ServiceName(s)) && TargetLabels(s)[1..] == DomainLabels(s);
  }

  function SrvRecordOf(s: Service, ttl: u32, port: u16): Record
    requires Buildable(s) && Parseable(s)
  {
    NameLabels(s);
    Record(InstanceText(s), Answer, TYPE_SRV, CLASS_IN, false, ttl, 6 + WireLength(TargetLabels(s)),
           Srv(0, 0, port, HostText(s)))
  }

  // ---------- Reading it ----------

  lemma PlainSrvFields(p: seq<byte>, at: nat, owner: seq<Label>, ttl: u32, port: u16, host: seq<Label>)
    requires LabelsOk(owner) && LabelsOk(host) && WireLength(host) <= MAX_WIRE_NAME
    requires At(p, at, PlainSrv(owner, ttl, port, host))
    ensures var data := at + WireLength(owner) + 10;
            && HasFields(p, at, WireLength(owner), TYPE_SRV, CLASS_IN, ttl, 6 + WireLength(host))
            && At(p, at, EncodeName(owner)) && At(p, data + 6, EncodeName(host)) && data + 6 + WireLength(host) <= |p|
            && ReadU16(p, data + 6 + WireLength(host), data) == Success(0)
            && ReadU16(p, data + 6 + WireLength(host), data + 2) == Success(0)
            && ReadU16(p, data + 6 + WireLength(host), data + 4) == Success(port)
  {
    hide U16, ReadU16, EncodeLabels, LabelsOk, BodyLength;
    var data := at + WireLength(owner) + 10;
    RecordFields(p, at, EncodeName(owner), TYPE_SRV, CLASS_IN, ttl, PlainSrvData(port, host));
    AtSplit(p, data, U16(0) + U16(0) + U16(port), EncodeName(host));
    AtSplit(p, data, U16(0) + U16(0), U16(port));
    AtSplit(p, data, U16(0), U16(0));
    ReadsU16(p, data + 6 + WireLength(host), data, 0);
    ReadsU16(p, data + 6 + WireLength(host), data + 2, 0);
    ReadsU16(p, data + 6 + WireLength(host), data + 4, port);
  }

  lemma PlainSrvParses(p: seq<byte>, at: nat, owner: seq<Label>, ttl: u32, port: u16, host: seq<Label>)
    requires LabelsOk(owner) && LabelsOk(host) && WireLength(owner) <= MAX_WIRE_NAME
    requires WireLength(host) <= MAX_WIRE_NAME
    requires At(p, at, PlainSrv(owner, ttl, port, host))
    ensures ParseRecord(p, at, Answer)
         == Success((Record(ReadText(owner), Answer, TYPE_SRV, CLASS_IN, false, ttl, 6 + WireLength(host),
                            Srv(0, 0, port, ReadText(host))),
                     at + WireLength(owner) + 16 + WireLength(host)))
  {
    hide At, NameAt, ParseRecord, ParseData, HasFields, Spells, EncodeLabels, LabelsOk, BodyLength, CString, Join,
         PlainSrv;
    var data := at + WireLength(owner) + 10;
    PlainSrvFields(p, at, owner, ttl, port, host);
    SpellsLabels(p, at, owner);
    SpelledNameDecodes(p, at, Literals(|owner|, WireDecode.Root), owner, at + WireLength(owner), 0);
    SpellsLabels(p, data + 6, host);
    SpelledNameDecodes(p, data + 6, Literals(|host|, WireDecode.Root), host, data + 6 + WireLength(host), 0);
    SrvDataParses(p, data, data + 6 + WireLength(host), port, ReadText(host));
    RecordParses(p, at, WireLength(owner), ReadText(owner), Answer, TYPE_SRV, CLASS_IN, ttl, 6 + WireLength(host),
                 Srv(0, 0, port, ReadText(host)));
  }

  lemma TwoRecordsParse(p: seq<byte>, a: Record, b: Record, o: nat, end: nat)
    requires |p| >= HEADER_SIZE && HeaderOf(p) == Header(0, RESPONSE, 0, 2, 0, 0)
    requires ParseRecord(p, HEADER_SIZE, Answer) == Success((a, o)) && ParseRecord(p, o, Answer) == Success((b, end))
    ensures ParseAll(p) == Success((Packet(HeaderOf(p), [], [a, b]), end))
  {
    hide ParseRecord;
    assert [] + [a] == [a] && [a] + [b] == [a, b];
    assert ParseRecords(p, o, 1, Answer, [a]) == ParseRecords(p, end, 0, Answer, [a] + [b]);
    assert ParseRecords(p, HEADER_SIZE, 2, Answer, []) == ParseRecords(p, o, 1, Answer, [] + [a]);
  }

  /** A receiver reads exactly the two records. */
  lemma RevivalReads(s: Service, port: u16, ttl: u32)
    requires Buildable(s) && Terminated(s) && Parseable(s)
    ensures ResponseRecords(RevivalBytes(s, port, ttl)) == Some([SrvRecordOf(s, 0, port), SrvRecordOf(s, ttl, port)])
  {
    hide At, ParseRecord, ParseAll, ServiceName, CString, Join, BodyLength, PlainSrv, U16, DomainLabels, Labels;
    NameLabels(s);
    ServiceTexts(s);
    var owner, host := OwnerLabels(s), TargetLabels(s);
    var first, second := PlainSrv(owner, 0, port, host), PlainSrv(owner, ttl, port, host);
    var p, o := RevivalBytes(s, port, ttl), HEADER_SIZE + WireLength(owner) + 16 + WireLength(host);
    PlainSrvSize(owner, 0, port, host);
    PlainSrvSize(owner, ttl, port, host);
    WholeAt(p);
    AtSplit(p, 0, TwoAnswers() + first, second);
    AtSplit(p, 0, TwoAnswers(), first);
    HeaderReads(p, 0, RESPONSE, 0, 2, 0, 0);
    PlainSrvParses(p, HEADER_SIZE, owner, 0, port, host);
    PlainSrvParses(p, o, owner, ttl, port, host);
    TwoRecordsParse(p, SrvRecordOf(s, 0, port), SrvRecordOf(s, ttl, port), o, |p|);
  }

  lemma PlainSrvSize(owner: seq<Label>, ttl: u32, port: u16, host: seq<Label>)
    requires LabelsOk(owner) && LabelsOk(host) && WireLength(host) <= MAX_WIRE_NAME
    ensures |PlainSrv(owner, ttl, port, host)| == WireLength(owner) + 16 + WireLength(host)
  {
  }

  lemma WholeAt(p: seq<byte>)
    ensures At(p, 0, p)
  {
  }

  // ---------- Receiving it ----------

  lemma TwoHistories(c: Search, e: Entry, x: Record, y: Record, now: u64)
    ensures PtrHistory(c, e, [x, y])
         == [if e.hasPtr then Some(Listed) else None] + PtrSays(c, e.fqdn, x) + PtrSays(c, e.fqdn, y)
    ensures SrvHistory(c, e, [x, y])
         == [Some(Endpoint(e.port, Fold(e.host)))] + SrvSays(c, e.fqdn, x) + SrvSays(c, e.fqdn, y)
    ensures TxtHistory(e, [x, y]) == [Some(Strings(e.txt))] + TxtSays(e.fqdn, x) + TxtSays(e.fqdn, y)
  {
    hide PtrSays, SrvSays, TxtSays, Fold;
    assert [] + [x] == [x] && [x] + [y] == [x, y];
    HistoryMore(c, e, [], x);
    HistoryMore(c, e, [x], y);
  }

  lemma HistoryMore(c: Search, e: Entry, records: seq<Record>, r: Record)
    ensures PtrHistory(c, e, records + [r]) == PtrHistory(c, e, records) + PtrSays(c, e.fqdn, r)
    ensures SrvHistory(c, e, records + [r]) == SrvHistory(c, e, records) + SrvSays(c, e.fqdn, r)
    ensures TxtHistory(e, records + [r]) == TxtHistory(e, records) + TxtSays(e.fqdn, r)
  {
    hide PtrSays, SrvSays, TxtSays, Fold;
    assert (records + [r])[..|records|] == records;
  }

  /** Without A records the address stays what it was. */
  lemma {:induction false} NoAddresses(first: Option<Data>, a: seq<Address>, host: seq<byte>, records: seq<Record>,
                                       now: u64)
    requires forall j :: 0 <= j < |records| ==> !records[j].data.A?
    ensures AddressHistory(first, a, host, records, now) == [first]
    decreases |records|
  {
    if records == [] {
    } else {
      NoAddresses(first, a, host, records[..|records| - 1], now);
    }
  }

  /** What an SRV record says, to an entry of its instance. */
  lemma SrvOnly(c: Search, fqdn: seq<byte>, r: Record)
    requires r.data.Srv? && InClass(r) && r.owner == fqdn
    ensures PtrSays(c, fqdn, r) == [] && TxtSays(fqdn, r) == []
    ensures SrvSays(c, fqdn, r)
         == [if r.ttl == 0 then None else Some(Endpoint(EffectivePort(c, r.data.port), Fold(r.data.target)))]
  {
    hide Fold, EffectivePort;
  }

  /** The two records, on an entry of that instance and host. */
  lemma RevivalHistories(c: Search, e: Entry, s: Service, port: u16, ttl: u32, now: u64)
    requires Buildable(s) && Parseable(s) && ttl > 0 && e.hasPtr && e.fqdn == InstanceText(s) && e.host == HostText(s)
    ensures var records := [SrvRecordOf(s, 0, port), SrvRecordOf(s, ttl, port)];
            && PtrHistory(c, e, records) == [Some(Listed)] && TxtHistory(e, records) == [Some(Strings(e.txt))]
            && SrvHistory(c, e, records) == [Some(Endpoint(e.port, Fold(e.host))), None,
                                             Some(Endpoint(EffectivePort(c, port), Fold(e.host)))]
            && Addresses(c, e, records, now) == [Some(Ip(e.ipv4))]
  {
    hide ServiceName, InstanceText, HostText, Fold, EffectivePort, AddressHistory, PtrHistory, SrvHistory, TxtHistory,
         PtrSays, SrvSays, TxtSays, Buildable, Parseable;
    var x, y := SrvRecordOf(s, 0, port), SrvRecordOf(s, ttl, port);
    SrvOnly(c, e.fqdn, x);
    SrvOnly(c, e.fqdn, y);
    TwoHistories(c, e, x, y, now);
    Stays(SrvHistory(c, e, [x, y]), Fold(e.host));
    NoAddresses(Some(Ip(e.ipv4)), c.addresses, Fold(e.host), [x, y], now);
  }

  lemma RevivalRevives(s: Service, port: u16, ttl: u32)
    requires Buildable(s) && Parseable(s) && ttl > 0
    ensures !NoRevival([SrvRecordOf(s, 0, port), SrvRecordOf(s, ttl, port)])
  {
    hide ServiceName, InstanceText, HostText, Fold;
    var records := [SrvRecordOf(s, 0, port), SrvRecordOf(s, ttl, port)];
    SameName(InstanceText(s));
    assert IsKind(records[1], SrvKind) && Withdraws(records[0], SrvKind, records[1].owner);
  }

  lemma Stays(h: History, host: seq<byte>)
    ensures (forall j :: 0 <= j < |h| ==> !Away(h[j], host)) ==> !Moves(h, host)
  {
  }

  lemma BetweenGone(x: Data, y: Data)
    ensures !ReplacedInPlace([Some(x), None, Some(y)]) && !ReplacedInPlace([Some(x)])
  {
  }

  /** Any entry the guest knows completely is affected, if the port that comes back is another one: the packet leaves it
      complete and unflagged, so that the dispatch tells nothing, and the guest keeps the old port. */
  lemma RevivalGoesUnnoticed(c: Cache, i: nat, g: GuestState, s: Service, port: u16, ttl: u32, now: u64)
    requires CacheOk(c.search, now) && i < |c.search.discovered|
    requires c.search.discovered[i].inUse && c.search.discovered[i].notified && Settled(c.search.discovered[i], g)
    requires Buildable(s) && Terminated(s) && Parseable(s) && ttl > 0
    requires c.search.discovered[i].fqdn == InstanceText(s) && c.search.discovered[i].host == HostText(s)
    requires EffectivePort(c.search, port) != c.search.discovered[i].port
    ensures var data := RevivalBytes(s, port, ttl);
            && ResponseRecords(data).Some? && !Harmless(data)
            && Deceives(c.search, c.search.discovered[i], ResponseRecords(data).value, now)
            && var t := PacketApplied(c, ResponseRecords(data).value, now);
               && |t.discovered| == |c.search.discovered|
               && var f := t.discovered[i];
                  && f.Complete() && !f.remove && !f.endpointChanged && !f.txtChanged && f.notified && !Honest(f, g)
                  && f.port == EffectivePort(c.search, port) && g.Known? && g.report.port == c.search.discovered[i].port
  {
    hide RevivalBytes, PacketApplied, ResponseRecords, ServiceName, InstanceText, HostText, CacheOk, EffectivePort,
         NoRevival, NameMatches, SrvRecordOf, Fold, PtrHistory, SrvHistory, TxtHistory, Addresses, ReplacedInPlace;
    var e := c.search.discovered[i];
    var records := [SrvRecordOf(s, 0, port), SrvRecordOf(s, ttl, port)];
    RevivalReads(s, port, ttl);
    RevivalHistories(c.search, e, s, port, ttl, now);
    RevivalRevives(s, port, ttl);
    BetweenGone(Endpoint(e.port, Fold(e.host)), Endpoint(EffectivePort(c.search, port), Fold(e.host)));
    BetweenGone(Strings(e.txt), Strings(e.txt));
    BetweenGone(Ip(e.ipv4), Ip(e.ipv4));
    SettledIsKnown(c.search, i, g, now);
    RevivalExact(c, i, g, records, now);
    PacketParts(c, i, records, now);
  }

  // ---------- From an announcement ----------

  /** A search once its entries have been told, when no callback makes a call (QuietDispatch). */
  function Dispatched(s: Search, next: nat): Search {
    s.(discovered := QuietEntries(s.discovered, next, |s.discovered|))
  }

  /** A search with a single entry. */
  predicate Alone(s: Search, e: Entry) {
    |s.discovered| == MAX_DISCOVERED && s.discovered[0] == e
    && forall j :: 0 < j < |s.discovered| ==> s.discovered[j] == EMPTY_ENTRY
  }

  lemma DispatchedAlone(s: Search, e: Entry, next: nat)
    requires Alone(s, e)
    ensures Dispatched(s, next) == WithEntry(s, 0, DispatchedEntry(e, TokenAfter(e, next)))
    ensures Alone(Dispatched(s, next), DispatchedEntry(e, TokenAfter(e, next)))
    ensures DispatchedSearch(s, Dispatched(s, next))
  {
    hide TokenAfter, DispatchedEntry;
    var d, f := s.discovered, DispatchedEntry(e, TokenAfter(e, next));
    assert d[..0] == [];
    UnusedStays();
    assert QuietEntries(d, next, |d|) == d[0 := f];
    DispatchKeepsToken(e, next);
    UnusedKept(d);
  }

  lemma UnusedStays()
    ensures forall token :: DispatchedEntry(EMPTY_ENTRY, token) == EMPTY_ENTRY
  {
  }

  lemma UnusedKept(d: seq<Entry>)
    ensures forall j :: 0 <= j < |d| && d[j] == EMPTY_ENTRY ==>
              DispatchedEntry(d[j], KeptToken(d[j], EMPTY_ENTRY)) == EMPTY_ENTRY
  {
  }

  lemma DispatchedOnce(s: Search, e: Entry, next: nat, now: u64)
    requires CacheOk(s, now) && Alone(s, e) && e.inUse && !e.remove
    ensures CacheOk(Dispatched(s, next), now)
  {
    hide NameMatches, Dispatched;
    var f := DispatchedEntry(e, TokenAfter(e, next));
    DispatchedAlone(s, e, next);
    assert EntrySane(e);
    forall j | 0 <= j < |s.addresses|
      ensures Agrees(f, s.addresses[j], now)
    {
      assert Agrees(e, s.addresses[j], now);
    }
    EntryReplaced(s, 0, f, now);
  }

  lemma EmptyHasRoom(c: Search, s: Service, now: u64)
    requires CacheOk(c, now) && NoEntries(c) && Buildable(s) && Parseable(s)
    requires NameMatches(c.serviceFqdn, ServiceName(s))
    ensures c.Shaped() && EntryFor(c.discovered, InstanceText(s)) == 0
    ensures AllocateAddress(c.addresses, HostText(s)).1 < |c.addresses|
  {
    hide NameMatches, ServiceName, InstanceText, HostText, Distinct, AddressAgreement;
    NamesFit(s, c.serviceFqdn);
    NothingFound(c.discovered, InstanceText(s));
    NoAddress(c.addresses, HostText(s));
  }

  lemma NoAddress(a: seq<Address>, host: seq<byte>)
    requires |a| > 0 && (forall j :: 0 <= j < |a| ==> !a[j].inUse) && 0 < |host| < MAX_NAME
    ensures AllocateAddress(a, host).1 < |a|
  {
  }

  lemma AnnouncementReads(s: Service, o: ResponseOptions)
    requires Buildable(s) && Terminated(s) && Parseable(s) && o.headerFlags >= 0x8000
    ensures ParseAll(ServicePacket(s, o)).Success?
    ensures ResponseRecords(ServicePacket(s, o)) == Some(Bounded(ParseAll(ServicePacket(s, o)).value.0).records)
  {
    hide ServicePacket, ParseAll, Buildable, Parseable, ServiceName, InstanceText, HostText, Bounded;
    ServiceRoundTrip(s, o);
  }

  /** The only entry after an announcement, not yet told. */
  lemma OneEntry(c: Search, t: Search, s: Service, token: nat, expires: u64)
    requires c.Shaped() && NoEntries(c) && ServiceValid(s)
    requires t.discovered == c.discovered[0 := AnnouncedEntry(c, s, token, expires)]
    ensures Alone(t, t.discovered[0])
    ensures var e := t.discovered[0];
            && e.inUse && !e.remove && !e.notified && e.Complete() && e.token == Some(token)
            && e.fqdn == InstanceText(s) && e.host == HostText(s) && e.port == EffectivePort(c, s.port)
  {
    hide ServiceName, InstanceText, HostText, EffectivePort;
  }

  lemma FoundSettles(e: Entry)
    requires e.inUse && !e.remove && e.Complete()
    ensures Settled(DispatchedEntry(e, e.token), Known(ReportOf(e)))
    ensures var f := DispatchedEntry(e, e.token);
            f.inUse && f.notified && f.fqdn == e.fqdn && f.host == e.host && f.port == e.port
  {
    hide Fold;
  }

  lemma SameNames(s: Search, t: Search, port: u16)
    requires t.serviceType == s.serviceType && t.domain == s.domain
    ensures EffectivePort(t, port) == EffectivePort(s, port)
  {
  }

  lemma StaleAgain(f: Entry, g: GuestState)
    requires f.inUse && f.Complete() && !f.remove && f.notified && g.Known? && f.port != g.report.port
    ensures !Settled(DispatchedEntry(f, f.token), g)
  {
  }

  /** A search for the service hears an announcement and reports it; then the revival comes. The guest still has the
      port of the announcement, the caches have the other one, and no notification is due. */
  lemma RevivalAfterAnnouncement(c: Cache, s: Service, o: ResponseOptions, port: u16, ttl: u32, now: u64, later: u64)
    requires Buildable(s) && Terminated(s) && Parseable(s) && Acceptable(s) && !o.goodbye && o.ttl > 0
    requires o.headerFlags >= 0x8000 && ttl > 0 && now <= later
    requires c.search.inUse && CacheOk(c.search, now) && NoEntries(c.search)
    requires NameMatches(c.search.serviceFqdn, ServiceName(s))
    requires EffectivePort(c.search, port) != EffectivePort(c.search, s.port)
    ensures var heard := ResponseRecords(ServicePacket(s, o));
            && heard.Some?
            && var t := PacketApplied(c, heard.value, now);
               && |t.discovered| == MAX_DISCOVERED && t.discovered[0].Complete()
               && var d, g := Dispatched(t, c.nextToken + 1), Known(ReportOf(t.discovered[0]));
                  && DispatchedSearch(t, d) && Settled(d.discovered[0], g)
                  && var revived := ResponseRecords(RevivalBytes(s, port, ttl));
                     && revived.Some?
                     && var u := PacketApplied(Cache(d, c.nextToken + 1), revived.value, later);
                        && |u.discovered| == MAX_DISCOVERED
                        && var f := u.discovered[0];
                           && f.Complete() && f.notified && !f.remove && !f.endpointChanged && !f.txtChanged
                           && g.report.port == EffectivePort(c.search, s.port)
                           && f.port == EffectivePort(c.search, port)
                           && !Settled(DispatchedEntry(f, f.token), g)
  {
    hide ServicePacket, RevivalBytes, ParseAll, PacketApplied, NameMatches, ServiceName, InstanceText, HostText,
         EffectivePort, Parseable, Buildable, CacheOk, NoEntries, Expiry, Dispatched, TxtBytes, TxtLength, Terminated,
         Acceptable;
    BuildableValid(s);
    EmptyHasRoom(c.search, s, now);
    AnnouncementReads(s, o);
    AnnouncementCompletes(c, s, o, now);
    AnnouncementUpdates(c, s, o, now);
    var t := PacketApplied(c, ResponseRecords(ServicePacket(s, o)).value, now);
    OneEntry(c.search, t, s, c.nextToken, Expiry(now, o.ttl));
    DispatchedAlone(t, t.discovered[0], c.nextToken + 1);
    DispatchedOnce(t, t.discovered[0], c.nextToken + 1, now);
    var d, g := Dispatched(t, c.nextToken + 1), Known(ReportOf(t.discovered[0]));
    LaterKeeps(d, now, later);
    FoundSettles(t.discovered[0]);
    SameNames(c.search, d, port);
    RevivalGoesUnnoticed(Cache(d, c.nextToken + 1), 0, g, s, port, ttl, later);
    var u := PacketApplied(Cache(d, c.nextToken + 1), ResponseRecords(RevivalBytes(s, port, ttl)).value, later);
    StaleAgain(u.discovered[0], g);
  }

  // ---------- One such run, byte by byte ----------

  /** Instance "i" of type "t" in domain "l", on host "h", port 1 and address 10.0.0.1. */
  const EXAMPLE := Service([116], [108], [105], [104], 1, [10, 0, 0, 1], [])

  const OPTIONS := ResponseOptions(RESPONSE, 120, true, false)

  /** Its announcement: header, PTR, SRV, TXT and A. */
  const ANNOUNCEMENT: seq<byte> :=
    [0, 0, 132, 0, 0, 0, 0, 1, 0, 0, 0, 3]
    + [1, 116, 1, 108, 0, 0, 12, 0, 1, 0, 0, 0, 120, 0, 4, 1, 105, 192, 12]
    + [192, 27, 0, 33, 128, 1, 0, 0, 0, 120, 0, 10, 0, 0, 0, 0, 0, 1, 1, 104, 192, 14]
    + [192, 27, 0, 16, 128, 1, 0, 0, 0, 120, 0, 0]
    + [192, 49, 0, 1, 128, 1, 0, 0, 0, 120, 0, 4, 10, 0, 0, 1]

  /** Its SRV record withdrawn and announced again, on port 2. */
  const REVIVAL: seq<byte> :=
    [0, 0, 132, 0, 0, 0, 0, 2, 0, 0, 0, 0]
    + [1, 105, 1, 116, 1, 108, 0, 0, 33, 0, 1, 0, 0, 0, 0, 0, 11, 0, 0, 0, 0, 0, 2, 1, 104, 1, 108, 0]
    + [1, 105, 1, 116, 1, 108, 0, 0, 33, 0, 1, 0, 0, 0, 120, 0, 11, 0, 0, 0, 0, 0, 2, 1, 104, 1, 108, 0]

  function ExampleSearch(): Search {
    EmptySearch().(inUse := true, generation := 1, serviceType := [116], domain := [108], serviceFqdn := [116, 46, 108])
  }

  lemma ExampleNames()
    ensures JoinedName([116], [108]) == Some([116, 46, 108]) && NameValid([116])
    ensures Labels([116]) == [[116]] && Labels([116, 46, 108]) == [[116], [108]] && DomainLabels(EXAMPLE) == [[108]]
  {
    SplitDotless([116]);
    SplitDotless([108]);
    SplitAtDot([116], [108]);
    assert [116] + [DOT] + [108] == [116, 46, 108];
    assert Labels([116, 46, 108]) == [[116], [108]] && Labels([116]) == [[116]];
    ExampleLengths();
    assert StripTrailingDots([116]) == [116] && StripTrailingDots([108]) == [108] && StripLeadingDots([108]) == [108];
  }

  lemma ExampleLengths()
    ensures WireLength([[116], [108]]) == 5 && WireLength([[116]]) == WireLength([[108]]) == 3
  {
    assert [[116], [108]][1..] == [[108]] && [[108]][1..] == [] && [[116]][1..] == [];
  }

  lemma ExampleFits()
    ensures Buildable(EXAMPLE) && ServiceName(EXAMPLE) == [116, 46, 108]
    ensures Terminated(EXAMPLE) && Parseable(EXAMPLE) && Acceptable(EXAMPLE)
  {
    ExampleNames();
    ExampleLengths();
  }

  lemma ExampleEncodings()
    ensures LabelsOk([[116], [108]]) && EncodeName([[116], [108]]) == [1, 116, 1, 108, 0]
    ensures LabelsOk([[105], [116], [108]]) && EncodeName([[105], [116], [108]]) == [1, 105, 1, 116, 1, 108, 0]
    ensures LabelsOk([[104], [108]]) && EncodeName([[104], [108]]) == [1, 104, 1, 108, 0]
  {
    EncodesOne([108]);
    EncodesNext([116], [[108]]);
    EncodesNext([105], [[116], [108]]);
    EncodesNext([104], [[108]]);
  }

  lemma EncodesOne(a: Label)
    requires LabelOk(a)
    ensures LabelsOk([a]) && EncodeName([a]) == LengthPrefixed(a) + [0]
  {
    assert [a][1..] == [];
  }

  lemma EncodesNext(a: Label, rest: seq<Label>)
    requires LabelOk(a) && LabelsOk(rest)
    ensures LabelsOk([a] + rest) && EncodeName([a] + rest) == LengthPrefixed(a) + EncodeName(rest)
  {
    assert ([a] + rest)[1..] == rest;
    forall i | 0 <= i < |[a] + rest|
      ensures LabelOk(([a] + rest)[i])
    {
      if i > 0 { assert ([a] + rest)[i] == rest[i - 1]; }
    }
    assert EncodeLabels([a] + rest) == LengthPrefixed(a) + EncodeLabels(rest);
  }

  function ExampleRecords(): Response {
    Response([[116], [108]], 2, [105], [104], 1, [10, 0, 0, 1], [], 0x8001, 120, RESPONSE)
  }

  lemma AnnouncementIs()
    ensures Buildable(EXAMPLE) && ServicePacket(EXAMPLE, OPTIONS) == ANNOUNCEMENT
  {
    hide Labels, Split, EncodeName, JoinedName, StripTrailingDots, StripLeadingDots, WireLength, BodyLength;
    ExampleResponse();
    ResponseOk(EXAMPLE, OPTIONS);
    AnnouncedService();
    AnnouncedInstance();
  }

  /** The offsets the example's pointers refer to. */
  lemma ExampleOffsets()
    ensures var r := ExampleRecords();
            && r.Ok() && r.DomainAt() == 14 && r.InstanceAt() == 27
            && r.SrvAt() == 31 && r.HostAt() == 49 && r.TxtAt() == 53
    ensures PointerBytes(12) == [192, 12] && PointerBytes(14) == [192, 14]
    ensures PointerBytes(27) == [192, 27] && PointerBytes(49) == [192, 49]
  {
    ExampleLengths();
    assert BodyLength([[116], [108]]) == 4;
  }

  lemma AnnouncedService()
    ensures ExampleRecords().Ok()
    ensures ExampleRecords().Header() == [0, 0, 132, 0, 0, 0, 0, 1, 0, 0, 0, 3]
    ensures ExampleRecords().PtrRecord() == [1, 116, 1, 108, 0, 0, 12, 0, 1, 0, 0, 0, 120, 0, 4, 1, 105, 192, 12]
  {
    hide EncodeName, WireLength, BodyLength, U16, RecordHeader, PointerBytes;
    ExampleEncodings();
    ExampleOffsets();
    ExampleFields();
    var r := ExampleRecords();
    assert r.PtrData() == [1, 105] + [192, 12];
    assert r.PtrRecord() == EncodeName(r.labels) + [0, 12, 0, 1, 0, 0, 0, 120] + [0, 4] + r.PtrData();
  }

  lemma AnnouncedInstance()
    ensures ExampleRecords().Ok()
    ensures ExampleRecords().SrvRecord()
         == [192, 27, 0, 33, 128, 1, 0, 0, 0, 120, 0, 10, 0, 0, 0, 0, 0, 1, 1, 104, 192, 14]
    ensures ExampleRecords().TxtRecord() == [192, 27, 0, 16, 128, 1, 0, 0, 0, 120, 0, 0]
    ensures ExampleRecords().ARecord() == [192, 49, 0, 1, 128, 1, 0, 0, 0, 120, 0, 4, 10, 0, 0, 1]
  {
    hide WireLength, BodyLength, U16, RecordHeader, PointerBytes;
    ExampleOffsets();
    ExampleFields();
    var r := ExampleRecords();
    assert r.SrvData() == [0, 0, 0, 0, 0, 1] + [1, 104] + [192, 14];
    assert r.SrvRecord() == [192, 27] + [0, 33, 128, 1, 0, 0, 0, 120] + [0, 10] + r.SrvData();
    assert r.TxtRecord() == [192, 27] + [0, 16, 128, 1, 0, 0, 0, 120] + [0, 0] + [];
  }

  lemma ExampleFields()
    ensures U16(0) == [0, 0] && U16(1) == [0, 1] && U16(2) == [0, 2] && U16(3) == [0, 3] && U16(4) == [0, 4]
    ensures U16(10) == [0, 10] && U16(11) == [0, 11] && U16(RESPONSE) == [132, 0]
    ensures RecordHeader(TYPE_PTR, CLASS_IN, 120) == [0, 12, 0, 1, 0, 0, 0, 120]
    ensures RecordHeader(TYPE_SRV, 0x8001, 120) == [0, 33, 128, 1, 0, 0, 0, 120]
    ensures RecordHeader(TYPE_TXT, 0x8001, 120) == [0, 16, 128, 1, 0, 0, 0, 120]
    ensures RecordHeader(TYPE_A, 0x8001, 120) == [0, 1, 128, 1, 0, 0, 0, 120]
    ensures RecordHeader(TYPE_SRV, CLASS_IN, 0) == [0, 33, 0, 1, 0, 0, 0, 0]
    ensures RecordHeader(TYPE_SRV, CLASS_IN, 120) == [0, 33, 0, 1, 0, 0, 0, 120]
  {
    assert U32(120) == [0, 0, 0, 120] && U32(0) == [0, 0, 0, 0] && U16(0x8001) == [128, 1] && U16(CLASS_IN) == [0, 1];
    assert U16(TYPE_PTR) == [0, 12] && U16(TYPE_SRV) == [0, 33] && U16(TYPE_TXT) == [0, 16] && U16(TYPE_A) == [0, 1];
  }

  lemma ExampleResponse()
    ensures Buildable(EXAMPLE) && ResponseOf(EXAMPLE, OPTIONS) == ExampleRecords()
  {
    hide Split, JoinedName, StripTrailingDots, StripLeadingDots;
    ExampleNames();
    ExampleFits();
    ExampleLengths();
  }

  lemma RevivalIs()
    ensures Buildable(EXAMPLE) && Parseable(EXAMPLE) && RevivalBytes(EXAMPLE, 2, 120) == REVIVAL
  {
    hide Labels, Split, EncodeName, JoinedName, StripTrailingDots, StripLeadingDots, Parseable, Buildable;
    ExampleNames();
    ExampleFits();
    ExampleEncodings();
    assert OwnerLabels(EXAMPLE) == [[105], [116], [108]] && TargetLabels(EXAMPLE) == [[104], [108]];
    NameLabels(EXAMPLE);
    RevivalRecords([[105], [116], [108]], [[104], [108]]);
    ExampleFields();
    assert TwoAnswers() == [0, 0, 132, 0, 0, 0, 0, 2, 0, 0, 0, 0];
  }

  lemma RevivalRecords(owner: seq<Label>, host: seq<Label>)
    requires LabelsOk(owner) && LabelsOk(host) && WireLength(host) <= MAX_WIRE_NAME
    requires EncodeName(owner) == [1, 105, 1, 116, 1, 108, 0] && EncodeName(host) == [1, 104, 1, 108, 0]
    ensures PlainSrv(owner, 0, 2, host)
         == [1, 105, 1, 116, 1, 108, 0, 0, 33, 0, 1, 0, 0, 0, 0, 0, 11, 0, 0, 0, 0, 0, 2, 1, 104, 1, 108, 0]
    ensures PlainSrv(owner, 120, 2, host)
         == [1, 105, 1, 116, 1, 108, 0, 0, 33, 0, 1, 0, 0, 0, 120, 0, 11, 0, 0, 0, 0, 0, 2, 1, 104, 1, 108, 0]
  {
    hide EncodeName, U16, RecordHeader, LabelsOk, WireLength;
    ExampleFields();
    assert PlainSrvData(2, host) == [0, 0, 0, 0, 0, 2, 1, 104, 1, 108, 0];
    assert PlainSrv(owner, 0, 2, host)
         == EncodeName(owner) + [0, 33, 0, 1, 0, 0, 0, 0] + [0, 11] + PlainSrvData(2, host);
    assert PlainSrv(owner, 120, 2, host)
         == EncodeName(owner) + [0, 33, 0, 1, 0, 0, 0, 120] + [0, 11] + PlainSrvData(2, host);
  }

  /** A search for "t.l" hears the first packet and tells the guest of "i" on port 1; after the second its caches say
      port 2, the entry is complete, and nothing is left to be told. */
  lemma ExampleFails(now: u64, later: u64)
    requires now <= later
    ensures var heard, revived := ResponseRecords(ANNOUNCEMENT), ResponseRecords(REVIVAL);
            && heard.Some? && revived.Some?
            && var t := PacketApplied(Cache(ExampleSearch(), 1), heard.value, now);
               && |t.discovered| == MAX_DISCOVERED
               && var d, g := Dispatched(t, 2), Known(ReportOf(t.discovered[0]));
                  && Settled(d.discovered[0], g) && g.report.port == 1
                  && var u := PacketApplied(Cache(d, 2), revived.value, later);
                     && |u.discovered| == MAX_DISCOVERED
                     && var f := u.discovered[0];
                        && f.Complete() && f.port == 2 && f.notified && !f.remove && !f.endpointChanged && !f.txtChanged
  {
    hide PacketApplied, ResponseRecords, Dispatched, ServicePacket, RevivalBytes, Settled, Parseable, Buildable,
         NameMatches;
    AnnouncementIs();
    RevivalIs();
    ExampleFits();
    ExampleSearchOk(now);
    RevivalAfterAnnouncement(Cache(ExampleSearch(), 1), EXAMPLE, OPTIONS, 2, 120, now, later);
  }

  lemma ExampleSearchOk(now: u64)
    ensures CacheOk(ExampleSearch(), now) && NoEntries(ExampleSearch())
    ensures NameMatches(ExampleSearch().serviceFqdn, [116, 46, 108])
    ensures EffectivePort(ExampleSearch(), 1) == 1 && EffectivePort(ExampleSearch(), 2) == 2
  {
  }
}
