/** Which packets and records concern a search, stated on their bytes. */
module ZeroconfRelevance {
  import opened Options
  import opened WireNames
  import opened WireParse
  import opened WireLayout
  import opened ZeroconfCache
  import opened ZeroconfEntry
  import opened ZeroconfRuns
  import opened ZeroconfSteps

  // ---------- Names ----------

  /** The same letter, whatever its case, or the same byte. */
  predicate SameLetter(a: byte, b: byte) {
    a == b || (65 <= a <= 90 && b == a + 32) || (65 <= b <= 90 && a == b + 32)
  }

  /** Names match byte by byte, up to the case of the letters A to Z. */
  lemma MatchExact(left: seq<byte>, right: seq<byte>)
    ensures NameMatches(left, right) <==>
              |left| == |right| && forall i :: 0 <= i < |left| ==> SameLetter(left[i], right[i])
  {
    var l, r := Fold(left), Fold(right);
    if l == r {
      assert |left| == |l| == |r| == |right|;
      forall i | 0 <= i < |left|
        ensures SameLetter(left[i], right[i])
      {
        assert l[i] == r[i];
      }
    }
  }

  /** An instance of a service: its own name of up to 255 bytes, a dot, and the name of the service. */
  lemma InstanceExact(service: seq<byte>, fqdn: seq<byte>, name: seq<byte>)
    ensures InstanceName(service, fqdn) == Some(name) <==>
              && 1 <= |name| <= 255 && |fqdn| == |name| + 1 + |service|
              && fqdn[..|name|] == name && fqdn[|name|] == 46 && NameMatches(fqdn[|name| + 1..], service)
  {
    hide NameMatches;
    var n := |fqdn| - |service| - 1;
    if n > 0 { MatchedLength(fqdn[n + 1..], service); }
  }

  lemma MatchedLength(left: seq<byte>, right: seq<byte>)
    ensures NameMatches(left, right) ==> |left| == |right|
  {
    MatchExact(left, right);
  }

  /** A port is the one that was announced, unless a search for "_PROJECT_KIWI._tcp" in "local" hears of port 2560, that
      is 10 with its bytes swapped. */
  lemma PortExact(s: Search, port: u16)
    ensures var kiwi := NameMatches(s.serviceType, [95, 80, 82, 79, 74, 69, 67, 84, 95, 75, 73, 87, 73, 46, 95, 116, 99,
                                                    112])
                        && NameMatches(s.domain, [108, 111, 99, 97, 108]);
            EffectivePort(s, port) == if kiwi && U16(port) == [10, 0] then 10 else port
  {
    hide NameMatches;
  }

  /** TXT data is taken over as these strings exactly if it consists of them, and they are at most 16, without a zero
      byte. */
  lemma TxtExact(r: Record, strings: seq<seq<byte>>)
    requires r.data.Txt?
    ensures AcceptedTxt(r) == Some(strings) <==>
              && (forall i :: 0 <= i < |strings| ==> |strings[i]| <= 255) && TxtBytes(strings) == r.data.bytes
              && |strings| <= 16 && forall i :: 0 <= i < |strings| ==> 0 !in strings[i]
  {
    hide TxtStrings, TxtBytes;
    if TxtStrings(r.data.bytes).Some? { TxtStringsSound(r.data.bytes); }
    if (forall i :: 0 <= i < |strings| ==> |strings[i]| <= 255) && TxtBytes(strings) == r.data.bytes {
      TxtStringsComplete(strings);
    }
  }

  // ---------- Packets ----------

  /** Only responses are heeded: packets that are laid out properly, and have the top bit of their flags set. Of these,
      the first 32 records are. */
  lemma ResponsesExact(data: seq<byte>, records: seq<Record>)
    ensures ResponseRecords(data) == Some(records) <==>
              exists packet, end: nat ::
                && PacketLaid(data, packet, end) && packet.header.flags >= 32768
                && records == if |packet.records| <= 32 then packet.records else packet.records[..32]
  {
    hide ParseAll, PacketLaid;
    if ParseAll(data).Success? {
      PacketExact(data, ParseAll(data).value.0, ParseAll(data).value.1);
    }
    forall packet, end: nat | PacketLaid(data, packet, end)
      ensures ParseAll(data) == Success((packet, end))
    {
      PacketExact(data, packet, end);
    }
  }

  /** A pump takes the packets before the first empty one, or the first 32 of them: how many is determined. */
  lemma {:induction false} PumpTakes(received: seq<(seq<byte>, u64)>, n: nat)
    ensures Takes(received, n) <==>
              && n <= 32 && n <= |received| && (forall m: nat :: Takes(received, m) ==> m == n)
              && (n < 32 && n < |received| ==> received[n].0 == []) && forall j :: 0 <= j < n ==> received[j].0 != []
  {
  }

  // ---------- Records ----------

  /** Of another class, or of a type that says nothing about services. */
  predicate Foreign(r: Record) {
    r.class_ != 1 || r.data.NoData?
  }

  lemma {:induction false} ForeignPhases(c: Cache, records: seq<Record>, now: u64)
    requires forall i :: 0 <= i < |records| ==> Foreign(records[i])
    ensures FoldPtr(c, records, now) == c && FoldService(c, records, now) == c
    ensures FoldAddress(c.search, records, now) == c.search
    decreases |records|
  {
    hide StepPtr, StepService, StepAddress;
    if records == [] {
    } else {
      assert Foreign(records[0]);
      ForeignSteps(c, records[0], now);
      ForeignPhases(c, records[1..], now);
    }
  }

  lemma ForeignSteps(c: Cache, r: Record, now: u64)
    requires Foreign(r)
    ensures StepPtr(c, r, now) == c && StepService(c, r, now) == c && StepAddress(c.search, r, now) == c.search
  {
    hide NameMatches, AllocateEntry, FindEntry, AllocateAddress, FindAddress, ServiceEntry, Expiry;
  }

  /** Such records do nothing: after them a search only asks for what it still lacks. */
  lemma ForeignIgnored(c: Cache, records: seq<Record>, now: u64)
    requires forall i :: 0 <= i < |records| ==> Foreign(records[i])
    ensures PacketApplied(c, records, now) == FollowedUpSearch(c.search, now)
  {
    hide FoldPtr, FoldService, FoldAddress, FollowedUpSearch;
    ForeignPhases(c, records, now);
  }

  /** Records that withdraw, or are about names outside the service, make no entries: an SRV or TXT record of an
      instance nobody knows, unless it announces one of the service. */
  lemma UnknownServiceIgnored(c: Cache, r: Record, now: u64)
    requires forall j :: 0 <= j < |c.search.discovered| ==> !EntryNamed(c.search.discovered[j], r.owner)
    requires r.ttl == 0 || InstanceName(c.search.serviceFqdn, r.owner).None?
    ensures StepService(c, r, now) == c
  {
    hide NameMatches, InstanceName, AllocateEntry;
    assert FindEntry(c.search.discovered, r.owner) == |c.search.discovered|;
  }

  /** What is known of an instance that was just heard of. */
  predicate JustMet(e: Entry, token: nat, fqdn: seq<byte>, name: seq<byte>) {
    && e.inUse && e.token == Some(token) && e.fqdn == fqdn && e.name == name && e.host == [] && e.port == 0
    && e.txt == [] && !e.notified && !e.remove && !e.endpointChanged && !e.txtChanged && e.nextSrvQuery == 0
    && e.nextTxtQuery == 0 && e.nextAQuery == 0 && !e.hasIpv4
  }

  /** A PTR record of the search's service that announces an instance nobody knows fills the first free slot with it,
      under the next token. */
  lemma InstanceMet(c: Cache, r: Record, name: seq<byte>, k: nat, now: u64)
    requires r.data.Ptr? && r.class_ == 1 && r.ttl > 0 && NameMatches(r.owner, c.search.serviceFqdn)
    requires InstanceName(c.search.serviceFqdn, r.data.target) == Some(name) && |r.data.target| <= 255
    requires forall j :: 0 <= j < |c.search.discovered| ==> !EntryNamed(c.search.discovered[j], r.data.target)
    requires k < |c.search.discovered| && !c.search.discovered[k].inUse
    requires forall j :: 0 <= j < k ==> c.search.discovered[j].inUse
    ensures var d := StepPtr(c, r, now);
            && d.nextToken == c.nextToken + 1 && d.search == c.search.(discovered := d.search.discovered)
            && |d.search.discovered| == |c.search.discovered|
            && JustMet(d.search.discovered[k], c.nextToken, r.data.target, name) && d.search.discovered[k].hasPtr
            && !d.search.discovered[k].hasSrv && !d.search.discovered[k].hasTxt
            && forall j :: 0 <= j < |c.search.discovered| && j != k ==> d.search.discovered[j] == c.search.discovered[j]
  {
    hide NameMatches, InstanceName, Expiry;
    assert FindEntry(c.search.discovered, r.data.target) == |c.search.discovered|;
    assert FreeEntry(c.search.discovered) == k;
  }

  /** An SRV or TXT record that announces an instance of the service nobody knows makes an entry for it too, which has
      this record and no other. */
  lemma ServiceMet(c: Cache, r: Record, name: seq<byte>, k: nat, now: u64)
    requires (r.data.Srv? || (r.data.Txt? && AcceptedTxt(r).Some?)) && r.class_ == 1 && r.ttl > 0
    requires InstanceName(c.search.serviceFqdn, r.owner) == Some(name) && |r.owner| <= 255
    requires forall j :: 0 <= j < |c.search.discovered| ==> !EntryNamed(c.search.discovered[j], r.owner)
    requires k < |c.search.discovered| && !c.search.discovered[k].inUse
    requires forall j :: 0 <= j < k ==> c.search.discovered[j].inUse
    ensures var d := StepService(c, r, now);
            && d.nextToken == c.nextToken + 1 && |d.search.discovered| == |c.search.discovered|
            && (forall j :: 0 <= j < |c.search.discovered| && j != k ==>
                  d.search.discovered[j] == c.search.discovered[j])
            && var e := d.search.discovered[k];
               && e.inUse && e.token == Some(c.nextToken) && e.fqdn == r.owner && e.name == name && !e.hasPtr
               && !e.notified && !e.remove && !e.endpointChanged && !e.txtChanged
               && (if r.data.Srv? then
                     && e.hasSrv && !e.hasTxt && e.host == r.data.target
                     && e.port == EffectivePort(c.search, r.data.port)
                     && e.hasIpv4 == CachedAddress(c.search.addresses, r.data.target, now).Some?
                   else !e.hasSrv && e.hasTxt && !e.hasIpv4 && AcceptedTxt(r) == Some(e.txt))
  {
    hide NameMatches, InstanceName, Expiry, EffectivePort, AcceptedTxt, CachedAddress, SrvApplied, TxtAnnounced;
    assert FindEntry(c.search.discovered, r.owner) == |c.search.discovered|;
    assert FreeEntry(c.search.discovered) == k;
    var e := EMPTY_ENTRY.(inUse := true, token := Some(c.nextToken), fqdn := r.owner, name := name);
    var s := WithEntry(c.search, k, e);
    assert AllocateEntry(c, r.owner) == (Cache(s, c.nextToken + 1), k);
    if r.data.Srv? {
      SrvFresh(c.search, s, e, r, now);
    } else {
      TxtFresh(e, AcceptedTxt(r).value, Expiry(now, r.ttl));
    }
  }

  /** What an SRV record leaves of an entry that had none. */
  predicate SameBesides(e: Entry, f: Entry) {
    && f.inUse == e.inUse && f.token == e.token && f.fqdn == e.fqdn && f.name == e.name && f.hasPtr == e.hasPtr
    && f.hasTxt == e.hasTxt && f.notified == e.notified && f.remove == e.remove
    && f.endpointChanged == e.endpointChanged && f.txtChanged == e.txtChanged
  }

  lemma SrvFresh(s: Search, t: Search, e: Entry, r: Record, now: u64)
    requires r.data.Srv? && SameFrame(s, t) && !e.hasSrv && !e.hasIpv4 && e.host == []
    ensures var f := SrvApplied(t, e, r.data.port, r.data.target, now, r.ttl);
            && f.hasSrv && f.port == EffectivePort(s, r.data.port) && f.host == r.data.target
            && f.hasIpv4 == CachedAddress(s.addresses, r.data.target, now).Some? && SameBesides(e, f)
  {
    hide NameMatches, Expiry, FindAddress, SrvAnnounced, CachedAddressApplied, SameBesides;
    var port, expires := EffectivePort(s, r.data.port), Expiry(now, r.ttl);
    AnnouncedFresh(e, port, r.data.target, expires);
    CachedFresh(e, SrvAnnounced(e, port, r.data.target, expires), CachedAddress(s.addresses, r.data.target, now));
  }

  lemma AnnouncedFresh(e: Entry, port: u16, target: seq<byte>, expires: u64)
    requires !e.hasSrv && !e.hasIpv4
    ensures var f := SrvAnnounced(e, port, target, expires);
            f.hasSrv && f.port == port && f.host == target && !f.hasIpv4 && SameBesides(e, f)
  {
    hide HostChanged;
  }

  lemma CachedFresh(e: Entry, f: Entry, cached: Option<Address>)
    requires f.hasSrv && !f.hasIpv4 && SameBesides(e, f)
    ensures var g := CachedAddressApplied(f, cached);
            g.hasSrv && g.port == f.port && g.host == f.host && g.hasIpv4 == cached.Some? && SameBesides(e, g)
  {
  }

  lemma TxtFresh(e: Entry, txt: seq<seq<byte>>, expires: u64)
    requires !e.hasTxt
    ensures var f := TxtAnnounced(e, txt, expires);
            && f.hasTxt && f.txt == txt && f.inUse == e.inUse && f.token == e.token && f.fqdn == e.fqdn
            && f.name == e.name && f.hasPtr == e.hasPtr && f.hasSrv == e.hasSrv && f.hasIpv4 == e.hasIpv4
            && f.notified == e.notified && f.remove == e.remove && f.endpointChanged == e.endpointChanged
            && f.txtChanged == e.txtChanged
  {
  }

  /** The address a host has in the cache: that of the first place named so, if it expires later. */
  lemma CachedExact(a: seq<Address>, host: seq<byte>, now: u64, x: Address)
    ensures CachedAddress(a, host, now) == Some(x) <==>
              && now < x.expires
              && exists i :: 0 <= i < |a| && a[i] == x && AddressNamed(x, host)
                             && forall j :: 0 <= j < i ==> !AddressNamed(a[j], host)
  {
    hide NameMatches;
  }

  /** An address finds a place exactly if its host has one, or if there is a free one and the host is named, by at most
      255 bytes. */
  lemma RoomExact(a: seq<Address>, host: seq<byte>)
    ensures HasRoom(a, host) <==>
              || (exists j :: 0 <= j < |a| && AddressNamed(a[j], host))
              || (1 <= |host| <= 255 && exists j :: 0 <= j < |a| && !a[j].inUse)
  {
    hide NameMatches;
  }

  /** An instance nobody knows finds no place exactly if all slots are taken or its name is too long. */
  lemma InstanceRefused(c: Cache, fqdn: seq<byte>)
    requires forall j :: 0 <= j < |c.search.discovered| ==> !EntryNamed(c.search.discovered[j], fqdn)
    ensures AllocateEntry(c, fqdn).1 == |c.search.discovered| <==>
              || (forall j :: 0 <= j < |c.search.discovered| ==> c.search.discovered[j].inUse)
              || |fqdn| > 255 || InstanceName(c.search.serviceFqdn, fqdn).None?
  {
    hide NameMatches, InstanceName;
    assert FindEntry(c.search.discovered, fqdn) == |c.search.discovered|;
  }
}
