/** The loops over the tables of one search: lookups, records, follow-up queries and expiry. */
module ZeroconfApply {
  import opened Options
  import opened WireNames
  import opened WireParse
  import opened ZeroconfCache
  import opened ZeroconfSteps

  datatype Query = Query(name: seq<byte>, qtype: u16)

  // ---------- Lookups ----------

  /** find_discovered */
  method FindDiscovered(d: seq<Entry>, fqdn: seq<byte>) returns (i: nat)
    ensures i == FindEntry(d, fqdn)
  {
    i := 0;
    while i < |d| && !(d[i].inUse && NameMatches(d[i].fqdn, fqdn))
      invariant i <= |d| && forall j :: 0 <= j < i ==> !EntryNamed(d[j], fqdn)
    {
      i := i + 1;
    }
  }

  /** find_address */
  method FindHost(a: seq<Address>, host: seq<byte>) returns (i: nat)
    ensures i == FindAddress(a, host)
  {
    i := 0;
    while i < |a| && !(a[i].inUse && NameMatches(a[i].host, host))
      invariant i <= |a| && forall j :: 0 <= j < i ==> !AddressNamed(a[j], host)
    {
      i := i + 1;
    }
  }

  /** allocate_discovered: a free slot is wiped even when the name then turns out not to belong to the search. */
  method AllocateDiscovered(c: Cache, fqdn: seq<byte>) returns (c': Cache, i: nat)
    ensures (c', i) == AllocateEntry(c, fqdn)
  {
    c' := c;
    i := FindDiscovered(c.search.discovered, fqdn);
    if i < |c.search.discovered| {
      return;
    }
    i := 0;
    while i < |c.search.discovered| && c.search.discovered[i].inUse
      invariant i <= |c.search.discovered| && forall j :: 0 <= j < i ==> c.search.discovered[j].inUse
    {
      i := i + 1;
    }
    if i == |c.search.discovered| {
      return;
    }
    var e := EMPTY_ENTRY;
    c' := c.(search := WithEntry(c.search, i, e));
    if |fqdn| >= MAX_NAME {
      return c', |c.search.discovered|;
    }
    var name := InstanceName(c.search.serviceFqdn, fqdn);
    if name.None? {
      return c', |c.search.discovered|;
    }
    e := e.(name := name.value);
    e := e.(token := Some(c.nextToken));
    e := e.(fqdn := fqdn);
    e := e.(inUse := true);
    assert c.search.discovered[i := EMPTY_ENTRY][i := e] == c.search.discovered[i := e];
    c' := Cache(WithEntry(c'.search, i, e), c.nextToken + 1);
  }

  /** allocate_address */
  method AllocateHost(a: seq<Address>, host: seq<byte>) returns (a': seq<Address>, i: nat)
    ensures (a', i) == AllocateAddress(a, host)
  {
    a' := a;
    i := FindHost(a, host);
    if i < |a| {
      return;
    }
    i := 0;
    while i < |a| && a[i].inUse
      invariant i <= |a| && forall j :: 0 <= j < i ==> a[j].inUse
    {
      i := i + 1;
    }
    if i == |a| {
      return;
    }
    if host == [] || |host| >= MAX_NAME {
      return a, |a|;
    }
    a' := a[i := Address(true, host, NO_IPV4, 0)];
  }

  // ---------- Records ----------

  /** What the parser guarantees of a record: its TXT strings have been counted. */
  predicate Parsed(r: Record) {
    r.data.Txt? ==> TxtData(r.data.bytes) == Success(r.data)
  }

  ghost predicate AllParsed(records: seq<Record>) {
    forall i :: 0 <= i < |records| ==> Parsed(records[i])
  }

  lemma {:induction false} ParsedRecords(data: seq<byte>, offset: nat, count: nat, section: Section, sofar: seq<Record>)
    requires AllParsed(sofar)
    ensures match ParseRecords(data, offset, count, section, sofar)
            case Success(r) => AllParsed(r.0)
            case Failure(_) => true
    decreases count
  {
    hide NameAt, TxtStrings;
    if count > 0 && ParseRecord(data, offset, section).Success? {
      var r := ParseRecord(data, offset, section).value;
      assert Parsed(r.0);
      ParsedRecords(data, r.1, count - 1, section, sofar + [r.0]);
    }
  }

  /** Every record of an accepted packet is well formed, also among the ones that are kept. */
  lemma ParsedPacket(data: seq<byte>)
    ensures match ParseAll(data)
            case Success(r) => AllParsed(r.0.records) && AllParsed(Bounded(r.0).records)
            case Failure(_) => true
  {
    hide ParseRecords, ParseQuestions, Parsed;
    if |data| >= HEADER_SIZE {
      var header := HeaderOf(data);
      match ParseQuestions(data, HEADER_SIZE, header.questions, [])
      case Failure(_) =>
      case Success((_, start)) =>
        ParsedRecords(data, start, header.answers, Answer, []);
        match ParseRecords(data, start, header.answers, Answer, [])
        case Failure(_) =>
        case Success((answers, next)) =>
          ParsedRecords(data, next, header.authorities, Authority, answers);
          match ParseRecords(data, next, header.authorities, Authority, answers)
          case Failure(_) =>
          case Success((more, last)) =>
            ParsedRecords(data, last, header.additionals, Additional, more);
    }
  }

  /** apply_ptr_records */
  method ApplyPtrRecords(c: Cache, records: seq<Record>, now: u64) returns (c': Cache)
    ensures c' == FoldPtr(c, records, now)
  {
    c' := c;
    var rest := records;
    while rest != []
      invariant FoldPtr(c', rest, now) == FoldPtr(c, records, now)
      decreases |rest|
    {
      var r := rest[0];
      rest := rest[1..];
      if !r.data.Ptr? || r.class_ != CLASS_IN || !NameMatches(r.owner, c'.search.serviceFqdn) {
        continue;
      }
      var i: nat;
      if r.ttl == 0 {
        i := FindDiscovered(c'.search.discovered, r.data.target);
        if i < |c'.search.discovered| {
          var e := c'.search.discovered[i];
          e := e.(changes := e.changes + 1);
          e := e.(hasPtr := false, ptrExpires := 0, remove := true);
          c' := c'.(search := WithEntry(c'.search, i, e));
        }
        continue;
      }
      c', i := AllocateDiscovered(c', r.data.target);
      if i == |c'.search.discovered| {
        continue;
      }
      var e := c'.search.discovered[i];
      e := e.(changes := e.changes + 1);
      e := e.(hasPtr := true, ptrExpires := Expiry(now, r.ttl), remove := false);
      c' := c'.(search := WithEntry(c'.search, i, e));
    }
  }

  /** apply_cached_address */
  method ApplyCachedAddress(addresses: seq<Address>, e: Entry, now: u64) returns (e': Entry)
    ensures e' == CachedAddressApplied(e, CachedAddress(addresses, e.host, now))
  {
    hide NameMatches;
    e' := e;
    if !e.hasSrv {
      return;
    }
    var i := FindHost(addresses, e.host);
    if i == |addresses| || addresses[i].expires == 0 || addresses[i].expires <= now {
      return;
    }
    var a, endpointChanged := addresses[i], e.endpointChanged;
    if e.hasIpv4 && e.ipv4 != a.ipv4 {
      endpointChanged := true;
    }
    e' := e.(changes := e.changes + 1, endpointChanged := endpointChanged, ipv4 := a.ipv4, aExpires := a.expires,
             hasIpv4 := true);
  }

  /** An announced SRV record: a moved host drops the address of the old one. */
  method AnnounceSrv(e: Entry, port: u16, target: seq<byte>, expires: u64) returns (e': Entry)
    ensures e' == SrvAnnounced(e, port, target, expires)
  {
    hide NameMatches;
    var hostChanged := e.host != [] && !NameMatches(e.host, target);
    var endpointChanged := e.endpointChanged;
    if e.hasSrv && (e.port != port || hostChanged) {
      endpointChanged := true;
    }
    var hasIpv4, aExpires, nextAQuery := e.hasIpv4, e.aExpires, e.nextAQuery;
    if hostChanged {
      hasIpv4, aExpires, nextAQuery := false, 0, 0;
    }
    e' := e.(changes := e.changes + 1, endpointChanged := endpointChanged, hasIpv4 := hasIpv4, aExpires := aExpires,
             nextAQuery := nextAQuery, port := port, host := target, hasSrv := true, srvExpires := expires);
  }

  /** The SRV branch of apply_service_records. */
  method ApplySrv(s: Search, e: Entry, port: u16, target: seq<byte>, ttl: u32, now: u64) returns (e': Entry)
    ensures e' == SrvApplied(s, e, port, target, now, ttl)
  {
    hide EffectivePort, CachedAddress, CachedAddressApplied, Expiry;
    e' := AnnounceSrv(e, EffectivePort(s, port), target, Expiry(now, ttl));
    e' := ApplyCachedAddress(s.addresses, e', now);
  }

  /** The TXT branch of apply_service_records: each string is looked up by its index. */
  method ReadTxt(r: Record) returns (txt: Option<seq<seq<byte>>>)
    requires r.data.Txt? && Parsed(r)
    ensures txt == AcceptedTxt(r)
  {
    hide TxtStrings, TxtNth, TxtBytes, NulFree;
    var count := r.data.count;
    TxtIndexCovers(r);
    if count > MAX_TXT_RECORDS {
      return None;
    }
    ghost var strings := TxtStrings(r.data.bytes).value;
    var texts: seq<seq<byte>> := [];
    for item := 0 to count
      invariant |texts| == item && texts == strings[..item]
      invariant forall i :: 0 <= i < item ==> NulFree(strings[i])
    {
      var found, text := TxtAt(r, item);
      assert found && text == strings[item];
      if !found || |text| >= MAX_NAME || !NulFree(text) {
        return None;
      }
      texts := texts + [text];
    }
    assert strings[..count] == strings;
    return Some(texts);
  }

  method WithdrawService(e: Entry, srv: bool) returns (e': Entry)
    ensures e' == ServiceWithdrawn(e, srv)
  {
    if srv {
      e' := e.(changes := e.changes + 1, hasSrv := false, srvExpires := 0, nextSrvQuery := 0);
    } else {
      e' := e.(changes := e.changes + 1, hasTxt := false, txtExpires := 0, nextTxtQuery := 0);
    }
  }

  method ApplyTxt(e: Entry, txt: seq<seq<byte>>, expires: u64) returns (e': Entry)
    ensures e' == TxtAnnounced(e, txt, expires)
  {
    var txtChanged := e.txtChanged;
    if e.hasTxt && e.txt != txt {
      txtChanged := true;
    }
    e' := e.(changes := e.changes + 1, txtChanged := txtChanged, txt := txt, hasTxt := true, txtExpires := expires);
  }

  /** apply_service_records */
  method ApplyServiceRecords(c: Cache, records: seq<Record>, now: u64) returns (c': Cache)
    requires AllParsed(records)
    ensures c' == FoldService(c, records, now)
  {
    hide FindEntry, AllocateEntry, SrvApplied, ServiceWithdrawn, TxtAnnounced, AcceptedTxt, InstanceName, Expiry,
         TxtData;
    c' := c;
    var rest := records;
    while rest != []
      invariant FoldService(c', rest, now) == FoldService(c, records, now) && AllParsed(rest)
      decreases |rest|
    {
      var r := rest[0];
      assert Parsed(r);
      rest := rest[1..];
      if r.class_ != CLASS_IN || !(r.data.Srv? || r.data.Txt?) {
        continue;
      }
      var i := FindDiscovered(c'.search.discovered, r.owner);
      if i == |c'.search.discovered| && r.ttl > 0 {
        if InstanceName(c'.search.serviceFqdn, r.owner).None? {
          continue;
        }
        c', i := AllocateDiscovered(c', r.owner);
      }
      if i == |c'.search.discovered| {
        continue;
      }
      var e := c'.search.discovered[i];
      if r.ttl == 0 {
        e := WithdrawService(e, r.data.Srv?);
        c' := c'.(search := WithEntry(c'.search, i, e));
        continue;
      }
      if r.data.Srv? {
        e := ApplySrv(c'.search, e, r.data.port, r.data.target, r.ttl, now);
        c' := c'.(search := WithEntry(c'.search, i, e));
        continue;
      }
      var txt := ReadTxt(r);
      if txt.None? {
        continue;
      }
      e := ApplyTxt(e, txt.value, Expiry(now, r.ttl));
      c' := c'.(search := WithEntry(c'.search, i, e));
    }
  }

  /** The loop over the entries for a withdrawn address. */
  method WithdrawFromEntries(d: seq<Entry>, host: seq<byte>) returns (d': seq<Entry>)
    ensures d' == MapEntries(d, e => AddressWithdrawn(e, host))
  {
    d' := d;
    for i := 0 to |d|
      invariant |d'| == |d| && (forall j :: 0 <= j < i ==> d'[j] == AddressWithdrawn(d[j], host))
      invariant forall j :: i <= j < |d| ==> d'[j] == d[j]
    {
      var e := d'[i];
      if e.inUse && e.hasSrv && NameMatches(e.host, host) {
        e := e.(changes := e.changes + 1);
        d' := d'[i := e.(hasIpv4 := false, aExpires := 0, nextAQuery := 0)];
      }
    }
  }

  /** The loop over the entries for an announced address. */
  method AnnounceToEntries(d: seq<Entry>, host: seq<byte>, ipv4: Ipv4, expires: u64) returns (d': seq<Entry>)
    ensures d' == MapEntries(d, e => AddressAnnounced(e, host, ipv4, expires))
  {
    d' := d;
    for i := 0 to |d|
      invariant |d'| == |d| && (forall j :: 0 <= j < i ==> d'[j] == AddressAnnounced(d[j], host, ipv4, expires))
      invariant forall j :: i <= j < |d| ==> d'[j] == d[j]
    {
      var e := d'[i];
      if !e.inUse || !e.hasSrv || !NameMatches(e.host, host) {
        continue;
      }
      var endpointChanged := e.endpointChanged;
      if e.hasIpv4 && e.ipv4 != ipv4 {
        endpointChanged := true;
      }
      e := e.(changes := e.changes + 1, endpointChanged := endpointChanged, ipv4 := ipv4, hasIpv4 := true,
              aExpires := expires);
      d' := d'[i := e];
    }
  }

  /** apply_address_records */
  method ApplyAddressRecords(s: Search, records: seq<Record>, now: u64) returns (s': Search)
    ensures s' == FoldAddress(s, records, now)
  {
    hide FindAddress, AllocateAddress, AddressAnnounced, AddressWithdrawn;
    s' := s;
    var rest := records;
    while rest != []
      invariant FoldAddress(s', rest, now) == FoldAddress(s, records, now)
      decreases |rest|
    {
      var r := rest[0];
      rest := rest[1..];
      if !r.data.A? || r.class_ != CLASS_IN {
        continue;
      }
      if r.ttl == 0 {
        var i := FindHost(s'.addresses, r.owner);
        var addresses := s'.addresses;
        if i < |addresses| {
          addresses := addresses[i := EMPTY_ADDRESS];
        }
        var d := WithdrawFromEntries(s'.discovered, r.owner);
        s' := s'.(addresses := addresses, discovered := d);
        continue;
      }
      var addresses, i := AllocateHost(s'.addresses, r.owner);
      if i == |addresses| {
        continue;
      }
      var expires := Expiry(now, r.ttl);
      addresses := addresses[i := addresses[i].(ipv4 := r.data.address, expires := expires)];
      var d := AnnounceToEntries(s'.discovered, r.owner, r.data.address, expires);
      s' := s'.(addresses := addresses, discovered := d);
    }
  }

  // ---------- Follow-up queries ----------

  /** The records a known instance lacks, if their queries are due: SRV and TXT by its name, the address by its host. */
  function FollowUps(e: Entry, now: u64): seq<Query> {
    if !e.inUse || e.remove || !e.hasPtr then []
    else
      (if !e.hasSrv && now >= e.nextSrvQuery then [Query(e.fqdn, TYPE_SRV)] else [])
      + (if !e.hasTxt && now >= e.nextTxtQuery then [Query(e.fqdn, TYPE_TXT)] else [])
      + (if e.hasSrv && !e.hasIpv4 && now >= e.nextAQuery then [Query(e.host, TYPE_A)] else [])
  }

  function AllFollowUps(d: seq<Entry>, now: u64): seq<Query> {
    if d == [] then [] else AllFollowUps(d[..|d| - 1], now) + FollowUps(d[|d| - 1], now)
  }

  predicate SameTimes(e: Entry, f: Entry) {
    f.nextSrvQuery == e.nextSrvQuery && f.nextTxtQuery == e.nextTxtQuery && f.nextAQuery == e.nextAQuery
  }

  /** A record that was asked for is not asked for again within a second, whatever happens to the entry, unless one of
      its query times is reset. */
  lemma FollowUpsSpaced(e: Entry, at: u64, f: Entry, later: u64, q: Query)
    requires at <= later && SameTimes(FollowedUp(e, at), f)
    requires q in FollowUps(e, at) && q in FollowUps(f, later)
    ensures later >= at + FOLLOWUP_INTERVAL
  {
  }

  /** Query times that differ were set to 0, for a record that f lacks. */
  predicate ResetsOnly(e: Entry, f: Entry) {
    && (f.nextSrvQuery != e.nextSrvQuery ==> f.nextSrvQuery == 0 && !f.hasSrv)
    && (f.nextTxtQuery != e.nextTxtQuery ==> f.nextTxtQuery == 0 && !f.hasTxt)
    && (f.nextAQuery != e.nextAQuery ==> f.nextAQuery == 0 && !f.hasIpv4)
  }

  /** A withdrawal or an expiry resets the query time of the record it takes away, which may be asked for at once. */
  lemma LossResets(e: Entry, host: seq<byte>, now: u64)
    ensures ResetsOnly(e, ServiceWithdrawn(e, true)) && ResetsOnly(e, ServiceWithdrawn(e, false))
    ensures ResetsOnly(e, AddressWithdrawn(e, host))
    ensures ResetsOnly(e, ExpiredEntry(e, now))
  {
    hide NameMatches;
  }

  /** An announcement resets none, except that of the address when the host changes. */
  lemma AnnouncementsReset(e: Entry, port: u16, host: seq<byte>, ipv4: Ipv4, txt: seq<seq<byte>>, expires: u64)
    ensures SameTimes(e, TxtAnnounced(e, txt, expires)) && SameTimes(e, AddressAnnounced(e, host, ipv4, expires))
    ensures if HostChanged(e, host) then ResetsOnly(e, SrvAnnounced(e, port, host, expires))
            else SameTimes(e, SrvAnnounced(e, port, host, expires))
  {
    hide NameMatches;
  }

  /** send_followup_queries for one entry. */
  method FollowUpEntry(e: Entry, now: u64) returns (e': Entry, queries: seq<Query>)
    ensures e' == FollowedUp(e, now) && queries == FollowUps(e, now)
  {
    e', queries := e, [];
    if !e.inUse || e.remove || !e.hasPtr {
      return;
    }
    var nextSrvQuery, nextTxtQuery, nextAQuery := e.nextSrvQuery, e.nextTxtQuery, e.nextAQuery;
    if !e.hasSrv && now >= nextSrvQuery {
      queries := queries + [Query(e.fqdn, TYPE_SRV)];
      nextSrvQuery := now + FOLLOWUP_INTERVAL;
    }
    if !e.hasTxt && now >= nextTxtQuery {
      queries := queries + [Query(e.fqdn, TYPE_TXT)];
      nextTxtQuery := now + FOLLOWUP_INTERVAL;
    }
    if e.hasSrv && !e.hasIpv4 && now >= nextAQuery {
      queries := queries + [Query(e.host, TYPE_A)];
      nextAQuery := now + FOLLOWUP_INTERVAL;
    }
    e' := e.(nextSrvQuery := nextSrvQuery, nextTxtQuery := nextTxtQuery, nextAQuery := nextAQuery);
  }

  /** send_followup_queries */
  method SendFollowUps(s: Search, now: u64) returns (s': Search, queries: seq<Query>)
    ensures s' == FollowedUpSearch(s, now)
    ensures queries == AllFollowUps(s.discovered, now)
  {
    hide FollowedUp, FollowUps;
    var d := s.discovered;
    queries := [];
    for i := 0 to |d|
      invariant |d| == |s.discovered| && queries == AllFollowUps(s.discovered[..i], now)
      invariant forall j :: 0 <= j < i ==> d[j] == FollowedUp(s.discovered[j], now)
      invariant forall j :: i <= j < |d| ==> d[j] == s.discovered[j]
    {
      assert s.discovered[..i + 1][..i] == s.discovered[..i];
      var e, more := FollowUpEntry(d[i], now);
      d := d[i := e];
      queries := queries + more;
    }
    assert s.discovered[..|d|] == s.discovered;
    s' := s.(discovered := d);
  }

  // ---------- Expiry ----------

  /** The expiry loops of expire_discovered for one search. */
  method ExpireRecords(s: Search, now: u64) returns (s': Search)
    ensures s' == ExpiredSearch(s, now)
  {
    var addresses, d := s.addresses, s.discovered;
    for i := 0 to |addresses|
      invariant |addresses| == |s.addresses|
      invariant forall j :: 0 <= j < i ==> addresses[j] == ExpiredAddress(s.addresses[j], now)
      invariant forall j :: i <= j < |addresses| ==> addresses[j] == s.addresses[j]
    {
      var a := addresses[i];
      if a.inUse && a.expires != 0 && a.expires <= now {
        addresses := addresses[i := EMPTY_ADDRESS];
      }
    }
    for i := 0 to |d|
      invariant |d| == |s.discovered|
      invariant forall j :: 0 <= j < i ==> d[j] == ExpiredEntry(s.discovered[j], now)
      invariant forall j :: i <= j < |d| ==> d[j] == s.discovered[j]
    {
      if !d[i].inUse {
        continue;
      }
      var e := ExpireEntry(d[i], now);
      d := d[i := e];
    }
    s' := s.(addresses := addresses, discovered := d);
  }

  /** An expired entry, given which of its records are due. */
  lemma ExpiredParts(e: Entry, now: u64, ptr: bool, srv: bool, txt: bool, a: bool, empty: bool, changes: nat)
    requires e.inUse && ptr == Due(e.hasPtr, e.ptrExpires, now) && srv == Due(e.hasSrv, e.srvExpires, now)
    requires txt == Due(e.hasTxt, e.txtExpires, now) && a == Due(e.hasIpv4, e.aExpires, now)
    requires empty == (!(e.hasPtr && !ptr) && !(e.hasSrv && !srv) && !(e.hasTxt && !txt))
    requires changes == e.changes + One(ptr) + One(srv) + One(txt) + One(a) + One(empty)
    ensures ExpiredEntry(e, now)
         == e.(hasPtr := e.hasPtr && !ptr, ptrExpires := if ptr then 0 else e.ptrExpires,
               hasSrv := e.hasSrv && !srv, srvExpires := if srv then 0 else e.srvExpires,
               nextSrvQuery := if srv then 0 else e.nextSrvQuery,
               hasTxt := e.hasTxt && !txt, txtExpires := if txt then 0 else e.txtExpires,
               nextTxtQuery := if txt then 0 else e.nextTxtQuery,
               hasIpv4 := e.hasIpv4 && !a, aExpires := if a then 0 else e.aExpires,
               nextAQuery := if a then 0 else e.nextAQuery,
               remove := e.remove || ptr || empty, changes := changes)
  {
    hide Due, One;
  }

  /** Each record of an entry on its own clock. */
  method ExpireEntry(e: Entry, now: u64) returns (e': Entry)
    requires e.inUse
    ensures e' == ExpiredEntry(e, now)
  {
    hide ExpiredEntry;
    var changes, remove := e.changes, e.remove;
    var hasPtr, ptrExpires := e.hasPtr, e.ptrExpires;
    var ptr := hasPtr && ptrExpires != 0 && ptrExpires <= now;
    if ptr {
      changes, hasPtr, ptrExpires, remove := changes + 1, false, 0, true;
    }
    var hasSrv, srvExpires, nextSrvQuery := e.hasSrv, e.srvExpires, e.nextSrvQuery;
    var srv := hasSrv && srvExpires != 0 && srvExpires <= now;
    if srv {
      changes, hasSrv, srvExpires, nextSrvQuery := changes + 1, false, 0, 0;
    }
    var hasTxt, txtExpires, nextTxtQuery := e.hasTxt, e.txtExpires, e.nextTxtQuery;
    var txt := hasTxt && txtExpires != 0 && txtExpires <= now;
    if txt {
      changes, hasTxt, txtExpires, nextTxtQuery := changes + 1, false, 0, 0;
    }
    var hasIpv4, aExpires, nextAQuery := e.hasIpv4, e.aExpires, e.nextAQuery;
    var a := hasIpv4 && aExpires != 0 && aExpires <= now;
    if a {
      changes, hasIpv4, aExpires, nextAQuery := changes + 1, false, 0, 0;
    }
    var empty := !hasPtr && !hasSrv && !hasTxt;
    if empty {
      changes, remove := changes + 1, true;
    }
    e' := e.(changes := changes, remove := remove, hasPtr := hasPtr, ptrExpires := ptrExpires,
             hasSrv := hasSrv, srvExpires := srvExpires, nextSrvQuery := nextSrvQuery,
             hasTxt := hasTxt, txtExpires := txtExpires, nextTxtQuery := nextTxtQuery,
             hasIpv4 := hasIpv4, aExpires := aExpires, nextAQuery := nextAQuery);
    ExpiredParts(e, now, ptr, srv, txt, a, empty, changes);
  }
}
