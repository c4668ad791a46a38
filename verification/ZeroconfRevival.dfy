/** Packets that withdraw a record and announce it again: exactly when the guest is left with data the caches no
    longer hold. */
module ZeroconfRevival {
  import opened Options
  import opened WireNames
  import opened WireParse
  import opened ZeroconfCache
  import opened ZeroconfGuest
  import opened ZeroconfEntry
  import opened ZeroconfSteps

  // ---------- What a packet says of one record, in order ----------

  /** The data of a record; host names are compared up to ASCII case. */
  datatype Data = Listed | Endpoint(port: u16, host: seq<byte>) | Strings(txt: seq<seq<byte>>) | Ip(ipv4: Ipv4)

  /** What is held of a record before a packet, and after each of the packet's records about it. */
  type History = h: seq<Option<Data>> | h != [] witness [None]

  function Last(h: History): Option<Data> {
    h[|h| - 1]
  }

  /** Data the code tells apart: a first host is no change of host. */
  predicate Differ(x: Data, y: Data) {
    if x.Endpoint? && y.Endpoint? then x.port != y.port || (x.host != [] && x.host != y.host) else x != y
  }

  predicate Replacement(x: Option<Data>, y: Option<Data>) {
    x.Some? && y.Some? && Differ(x.value, y.value)
  }

  predicate ReplacedAt(h: History, j: nat) {
    j + 1 < |h| && Replacement(h[j], h[j + 1])
  }

  /** Other data was announced while data was held. */
  predicate ReplacedInPlace(h: History) {
    exists j: nat :: j < |h| && ReplacedAt(h, j)
  }

  lemma Appended(h: History, x: Option<Data>)
    ensures Last(h + [x]) == x
    ensures ReplacedInPlace(h + [x]) <==> ReplacedInPlace(h) || Replacement(Last(h), x)
  {
    hide Replacement;
    var k := h + [x];
    if ReplacedInPlace(h) {
      var j: nat :| j < |h| && ReplacedAt(h, j);
      assert ReplacedAt(k, j);
    }
    if Replacement(Last(h), x) { assert ReplacedAt(k, |h| - 1); }
    if ReplacedInPlace(k) {
      var j: nat :| j < |k| && ReplacedAt(k, j);
      assert j + 1 < |h| ==> ReplacedAt(h, j);
    }
  }

  /** The host was left for another one. */
  predicate Moves(h: History, host: seq<byte>) {
    exists j: nat :: j < |h| && ElsewhereAt(h, j, host)
  }

  predicate ElsewhereAt(h: History, j: nat, host: seq<byte>) {
    j < |h| && Away(h[j], host)
  }

  predicate Away(x: Option<Data>, host: seq<byte>) {
    x.Some? && x.value.Endpoint? && x.value.host != host
  }

  lemma MovesAppended(h: History, x: Option<Data>, host: seq<byte>)
    ensures Moves(h + [x], host) <==> Moves(h, host) || Away(x, host)
  {
    hide Away;
    var k := h + [x];
    if Moves(h, host) {
      var j: nat :| j < |h| && ElsewhereAt(h, j, host);
      assert ElsewhereAt(k, j, host);
    }
    if Away(x, host) { assert ElsewhereAt(k, |h|, host); }
    if Moves(k, host) {
      var j: nat :| j < |k| && ElsewhereAt(k, j, host);
      assert j < |h| ==> ElsewhereAt(h, j, host);
    }
  }

  // ---------- The histories of an entry's records ----------

  function PtrSays(s: Search, fqdn: seq<byte>, r: Record): seq<Option<Data>> {
    if PtrNames(s, r, fqdn) then [if r.ttl == 0 then None else Some(Listed)] else []
  }

  predicate ServiceNames(r: Record, fqdn: seq<byte>) {
    InClass(r) && NameMatches(fqdn, r.owner)
  }

  function SrvSays(s: Search, fqdn: seq<byte>, r: Record): seq<Option<Data>> {
    if !r.data.Srv? || !ServiceNames(r, fqdn) then []
    else [if r.ttl == 0 then None else Some(Endpoint(EffectivePort(s, r.data.port), Fold(r.data.target)))]
  }

  /** TXT data that cannot be taken over is passed over. */
  function TxtSays(fqdn: seq<byte>, r: Record): seq<Option<Data>> {
    if !r.data.Txt? || !ServiceNames(r, fqdn) then []
    else if r.ttl == 0 then [None]
    else match AcceptedTxt(r)
         case None => []
         case Some(txt) => [Some(Strings(txt))]
  }

  /** So is an address without room in the table. */
  function AddressSays(host: seq<byte>, r: Record, room: bool): seq<Option<Data>> {
    if !r.data.A? || !InClass(r) || !NameMatches(host, r.owner) then []
    else if r.ttl == 0 then [None]
    else if room then [Some(Ip(r.data.address))] else []
  }

  function PtrHistory(s: Search, e: Entry, records: seq<Record>): History {
    if records == [] then [if e.hasPtr then Some(Listed) else None]
    else PtrHistory(s, e, records[..|records| - 1]) + PtrSays(s, e.fqdn, records[|records| - 1])
  }

  function SrvHistory(s: Search, e: Entry, records: seq<Record>): History {
    if records == [] then [Some(Endpoint(e.port, Fold(e.host)))]
    else SrvHistory(s, e, records[..|records| - 1]) + SrvSays(s, e.fqdn, records[|records| - 1])
  }

  function TxtHistory(e: Entry, records: seq<Record>): History {
    if records == [] then [Some(Strings(e.txt))]
    else TxtHistory(e, records[..|records| - 1]) + TxtSays(e.fqdn, records[|records| - 1])
  }

  function Table(a: seq<Address>, records: seq<Record>, now: u64): (b: seq<Address>)
    ensures |b| == |a|
  {
    if records == [] then a
    else TableStep(Table(a, records[..|records| - 1], now), records[|records| - 1], now)
  }

  function AddressHistory(first: Option<Data>, a: seq<Address>, host: seq<byte>, records: seq<Record>, now: u64)
    : History
  {
    if records == [] then [first]
    else
      var before, r := records[..|records| - 1], records[|records| - 1];
      AddressHistory(first, a, host, before, now) + AddressSays(host, r, HasRoom(Table(a, before, now), r.owner))
  }

  /** The last PTR record decides whether the entry goes. */
  predicate Removes(e: Entry, ptr: History) {
    if |ptr| == 1 then e.remove else Last(ptr).None?
  }

  function Held(has: bool, data: Data): Option<Data> {
    if has then Some(data) else None
  }

  function IpOf(cached: Option<Address>): Option<Data> {
    if cached.Some? then Some(Ip(cached.value.ipv4)) else None
  }

  function CachedIp(s: Search, host: seq<byte>, now: u64): Option<Data> {
    IpOf(CachedAddress(s.addresses, host, now))
  }

  /** The address an entry brings to the A records of a packet: its own, or after a move the cached one of its host. */
  function Brought(s: Search, e: Entry, srv: History, now: u64): Option<Data> {
    if Moves(srv, Fold(e.host)) && Last(srv).Some? && Last(srv).value.Endpoint?
    then CachedIp(s, Last(srv).value.host, now)
    else Some(Ip(e.ipv4))
  }

  /** The addresses of the host the entry has after the SRV records. */
  function Addresses(s: Search, e: Entry, records: seq<Record>, now: u64): History {
    var srv := SrvHistory(s, e, records);
    var host := if Last(srv).Some? && Last(srv).value.Endpoint? then Last(srv).value.host else [];
    AddressHistory(Brought(s, e, srv, now), s.addresses, host, records, now)
  }

  /** The packet leaves the guest with data the caches no longer hold: all four records are held at the end, the
      endpoint was never replaced in place, and it differs, or the strings do without having been replaced in
      place. */
  predicate Deceives(s: Search, e: Entry, records: seq<Record>, now: u64) {
    var srv, txt, a := SrvHistory(s, e, records), TxtHistory(e, records), Addresses(s, e, records, now);
    && Last(PtrHistory(s, e, records)).Some? && Last(srv).Some? && Last(txt).Some? && Last(a).Some?
    && !ReplacedInPlace(srv) && !ReplacedInPlace(a)
    && (Last(srv) != srv[0] || Last(a) != Some(Ip(e.ipv4)) || (!ReplacedInPlace(txt) && Last(txt) != txt[0]))
  }

  // ---------- A known entry ----------

  /** A known complete entry in agreement with the cached addresses. */
  ghost predicate KnownEntry(s: Search, e: Entry, now: u64) {
    && e.inUse && e.notified && e.Complete() && !e.endpointChanged && !e.txtChanged && e.host != []
    && DistinctHosts(s.addresses) && (forall j :: 0 <= j < |s.addresses| ==> Agrees(e, s.addresses[j], now))
    && forall j :: 0 <= j < |s.addresses| ==> AddressSane(s.addresses[j])
  }

  lemma SettledIsKnown(s: Search, i: nat, g: GuestState, now: u64)
    requires CacheOk(s, now) && i < |s.discovered| && s.discovered[i].inUse && s.discovered[i].notified
    requires Settled(s.discovered[i], g)
    ensures KnownEntry(s, s.discovered[i], now)
  {
    hide NameMatches;
    assert EntrySane(s.discovered[i]);
  }

  lemma KnownInUse(s: Search, e: Entry, now: u64)
    requires KnownEntry(s, e, now)
    ensures e.inUse && e.host != [] && e.Complete() && !e.endpointChanged && !e.txtChanged
  {
  }

  /** The cached address of the entry's host is the entry's. */
  lemma CachedAgrees(s: Search, e: Entry, target: seq<byte>, now: u64)
    requires KnownEntry(s, e, now) && NameMatches(e.host, target)
    ensures CachedIp(s, target, now).Some? ==> CachedIp(s, target, now) == Some(Ip(e.ipv4))
  {
    hide Fold;
    var k := FindAddress(s.addresses, target);
    if k < |s.addresses| { assert Agrees(e, s.addresses[k], now); }
  }

  lemma SameCached(s: Search, left: seq<byte>, right: seq<byte>, now: u64)
    requires NameMatches(left, right)
    ensures CachedIp(s, left, now) == CachedIp(s, right, now)
  {
    hide Fold;
    SameFound(s.addresses, left, right);
  }

  lemma FoldTwice(name: seq<byte>)
    ensures Fold(Fold(name)) == Fold(name) && (Fold(name) == [] <==> name == [])
  {
  }

  /** No address is cached for the empty name. */
  lemma EmptyUncached(s: Search, host: seq<byte>, now: u64)
    requires host == [] && forall j :: 0 <= j < |s.addresses| ==> AddressSane(s.addresses[j])
    ensures CachedIp(s, host, now).None?
  {
    hide NameMatches;
    forall j | 0 <= j < |s.addresses|
      ensures !AddressNamed(s.addresses[j], host)
    {
      if NameMatches(s.addresses[j].host, host) { MatchesEmpty(s.addresses[j].host, host); }
    }
  }

  // ---------- Following the histories: SRV and TXT ----------

  predicate SrvFollows(f: Entry, h: History) {
    Last(h) == Held(f.hasSrv, Endpoint(f.port, Fold(f.host))) && (f.endpointChanged <==> ReplacedInPlace(h))
  }

  predicate TxtFollows(f: Entry, h: History) {
    Last(h) == Held(f.hasTxt, Strings(f.txt)) && (f.txtChanged <==> ReplacedInPlace(h))
  }

  /** The address during the SRV records: the entry's own until it moves, then the cached one of each host. */
  predicate AddressFollows(s: Search, e: Entry, f: Entry, h: History, now: u64) {
    Held(f.hasIpv4, Ip(f.ipv4))
    == (if Moves(h, Fold(e.host)) then CachedIp(s, f.host, now) else Some(Ip(e.ipv4)))
    && (!Moves(h, Fold(e.host)) ==> NameMatches(e.host, f.host))
  }

  /** The fields that no SRV or TXT record changes. */
  predicate SameIdentityOf(e: Entry, f: Entry) {
    f.inUse == e.inUse && f.fqdn == e.fqdn && f.notified == e.notified && f.token == e.token
  }

  predicate SamePtr(e: Entry, f: Entry) {
    f.hasPtr == e.hasPtr && f.remove == e.remove
  }

  lemma SrvCame(s: Search, e: Entry, f: Entry, h: History, r: Record, now: u64)
    requires KnownEntry(s, e, now) && r.data.Srv? && r.ttl > 0
    requires SrvFollows(f, h) && AddressFollows(s, e, f, h, now)
    ensures var g := SrvApplied(s, f, r.data.port, r.data.target, now, r.ttl);
            var h' := h + [Some(Endpoint(EffectivePort(s, r.data.port), Fold(r.data.target)))];
            && SrvFollows(g, h') && AddressFollows(s, e, g, h', now)
            && SameIdentityOf(f, g) && SamePtr(f, g)
            && g.hasTxt == f.hasTxt && g.txt == f.txt && g.txtChanged == f.txtChanged
  {
    hide EffectivePort, Expiry, KnownEntry, Fold, Moves, ReplacedInPlace, CachedAddress, SrvAnnounced,
         CachedAddressApplied, Replacement, SrvFollows, AddressFollows, SameIdentityOf, SamePtr, Last;
    var port, target := EffectivePort(s, r.data.port), r.data.target;
    var x := Some(Endpoint(port, Fold(target)));
    Appended(h, x);
    MovesAppended(h, x, Fold(e.host));
    AddressNext(s, e, f, h, port, target, Expiry(now, r.ttl), now);
    SrvNext(f, h, port, target, Expiry(now, r.ttl), CachedAddress(s.addresses, target, now));
  }

  /** What an announced SRV record does to the address; it never disagrees with a cached one. */
  lemma AddressNext(s: Search, e: Entry, f: Entry, h: History, port: u16, target: seq<byte>, expires: u64, now: u64)
    requires KnownEntry(s, e, now) && AddressFollows(s, e, f, h, now)
    ensures var x := Some(Endpoint(port, Fold(target)));
            var cached := CachedAddress(s.addresses, target, now);
            var m := SrvAnnounced(f, port, target, expires);
            && AddressFollows(s, e, CachedAddressApplied(m, cached), h + [x], now)
            && (cached.Some? && m.hasIpv4 ==> m.ipv4 == cached.value.ipv4)
  {
    hide KnownEntry, Fold, Moves, CachedAddress, SrvAnnounced, CachedAddressApplied;
    MovesAppended(h, Some(Endpoint(port, Fold(target))), Fold(e.host));
    KnownInUse(s, e, now);
    FoldTwice(f.host);
    FoldTwice(e.host);
    KnownSane(s, e, now);
    if f.host == [] { EmptyUncached(s, f.host, now); }
    if NameMatches(f.host, target) { SameCached(s, f.host, target, now); }
    if NameMatches(e.host, target) { CachedAgrees(s, e, target, now); }
    AddressTurn(f, port, target, expires, CachedAddress(s.addresses, target, now));
  }

  lemma AddressTurn(f: Entry, port: u16, target: seq<byte>, expires: u64, cached: Option<Address>)
    requires !HostChanged(f, target) && f.hasIpv4 && cached.Some? ==> f.ipv4 == cached.value.ipv4
    ensures var m := SrvAnnounced(f, port, target, expires);
            var g := CachedAddressApplied(m, cached);
            && g.host == target && (cached.Some? && m.hasIpv4 ==> m.ipv4 == cached.value.ipv4)
            && Held(g.hasIpv4, Ip(g.ipv4)) == (if cached.Some? then IpOf(cached) else
                                               if HostChanged(f, target) then None else Held(f.hasIpv4, Ip(f.ipv4)))
  {
    hide NameMatches;
  }

  lemma KnownSane(s: Search, e: Entry, now: u64)
    requires KnownEntry(s, e, now)
    ensures forall j :: 0 <= j < |s.addresses| ==> AddressSane(s.addresses[j])
  {
  }

  lemma SrvNext(f: Entry, h: History, port: u16, target: seq<byte>, expires: u64, cached: Option<Address>)
    requires SrvFollows(f, h)
    requires var m := SrvAnnounced(f, port, target, expires);
             cached.Some? && m.hasIpv4 ==> m.ipv4 == cached.value.ipv4
    ensures var g := CachedAddressApplied(SrvAnnounced(f, port, target, expires), cached);
            && SrvFollows(g, h + [Some(Endpoint(port, Fold(target)))]) && SameIdentityOf(f, g) && SamePtr(f, g)
            && g.hasTxt == f.hasTxt && g.txt == f.txt && g.txtChanged == f.txtChanged
  {
    hide Fold, ReplacedInPlace, Last;
    FoldTwice(f.host);
    Appended(h, Some(Endpoint(port, Fold(target))));
  }

  lemma TxtCame(f: Entry, h: History, txt: seq<seq<byte>>, expires: u64)
    requires TxtFollows(f, h)
    ensures TxtFollows(TxtAnnounced(f, txt, expires), h + [Some(Strings(txt))])
  {
    hide ReplacedInPlace, Last;
    Appended(h, Some(Strings(txt)));
  }

  lemma SrvGone(s: Search, e: Entry, f: Entry, srv: History, txt: History, now: u64)
    requires SrvFollows(f, srv) && TxtFollows(f, txt) && AddressFollows(s, e, f, srv, now)
    ensures var g := ServiceWithdrawn(f, true);
            SrvFollows(g, srv + [None]) && TxtFollows(g, txt) && AddressFollows(s, e, g, srv + [None], now)
  {
    hide ReplacedInPlace, Last, Moves, Fold, CachedIp;
    Appended(srv, None);
    MovesAppended(srv, None, Fold(e.host));
  }

  lemma TxtGone(s: Search, e: Entry, f: Entry, srv: History, txt: History, now: u64)
    requires SrvFollows(f, srv) && TxtFollows(f, txt) && AddressFollows(s, e, f, srv, now)
    ensures var g := ServiceWithdrawn(f, false);
            SrvFollows(g, srv) && TxtFollows(g, txt + [None]) && AddressFollows(s, e, g, srv, now)
  {
    hide ReplacedInPlace, Last, Moves, Fold, CachedIp;
    Appended(txt, None);
  }

  /** An entry after the SRV and TXT records of a packet, and before any A record. */
  predicate ServiceFollows(s: Search, e: Entry, f: Entry, records: seq<Record>, now: u64) {
    && SrvFollows(f, SrvHistory(s, e, records)) && TxtFollows(f, TxtHistory(e, records))
    && AddressFollows(s, e, f, SrvHistory(s, e, records), now)
  }

  lemma ServiceNext(s: Search, e: Entry, f: Entry, records: seq<Record>, r: Record, now: u64)
    requires KnownEntry(s, e, now) && ServiceFollows(s, e, f, records, now) && f.fqdn == e.fqdn
    ensures var g := if InClass(r) && NameMatches(f.fqdn, r.owner) then ServiceOn(s, f, r, now) else f;
            ServiceFollows(s, e, g, records + [r], now) && SameIdentityOf(f, g) && SamePtr(f, g)
  {
    hide KnownEntry, SrvFollows, TxtFollows, AddressFollows, Last, NameMatches, SrvApplied, AcceptedTxt, TxtAnnounced,
         ServiceWithdrawn, EffectivePort, Expiry, Fold;
    assert (records + [r])[..|records|] == records;
    var srv, txt := SrvHistory(s, e, records), TxtHistory(e, records);
    assert srv + [] == srv && txt + [] == txt;
    if ServiceNames(r, f.fqdn) && r.data.Srv? && r.ttl > 0 {
      SrvCame(s, e, f, srv, r, now);
      SameTxtFollows(f, SrvApplied(s, f, r.data.port, r.data.target, now, r.ttl), txt);
    } else if ServiceNames(r, f.fqdn) && (r.data.Srv? || r.data.Txt?) && r.ttl == 0 {
      SrvGone(s, e, f, srv, txt, now);
      TxtGone(s, e, f, srv, txt, now);
      ServiceLeaves(s, e, f, [], 0, srv, now);
    } else if ServiceNames(r, f.fqdn) && r.data.Txt? && AcceptedTxt(r).Some? {
      TxtCame(f, txt, AcceptedTxt(r).value, Expiry(now, r.ttl));
      ServiceLeaves(s, e, f, AcceptedTxt(r).value, Expiry(now, r.ttl), srv, now);
    }
  }

  lemma SameTxtFollows(f: Entry, g: Entry, h: History)
    requires TxtFollows(f, h) && g.hasTxt == f.hasTxt && g.txt == f.txt && g.txtChanged == f.txtChanged
    ensures TxtFollows(g, h)
  {
    hide ReplacedInPlace;
  }

  /** What withdrawals and TXT records leave alone. */
  lemma ServiceLeaves(s: Search, e: Entry, f: Entry, txt: seq<seq<byte>>, expires: u64, srv: History, now: u64)
    ensures SameIdentityOf(f, ServiceWithdrawn(f, true)) && SamePtr(f, ServiceWithdrawn(f, true))
    ensures SameIdentityOf(f, ServiceWithdrawn(f, false)) && SamePtr(f, ServiceWithdrawn(f, false))
    ensures var g := TxtAnnounced(f, txt, expires);
            && SameIdentityOf(f, g) && SamePtr(f, g) && (SrvFollows(f, srv) ==> SrvFollows(g, srv))
            && (AddressFollows(s, e, f, srv, now) ==> AddressFollows(s, e, g, srv, now))
  {
    hide SrvFollows, AddressFollows, SameIdentityOf, SamePtr, ServiceWithdrawn, TxtAnnounced;
    IdentityLeft(f, txt, expires);
    SrvLeft(f, txt, expires);
    SameSrvFollows(s, e, f, TxtAnnounced(f, txt, expires), srv, now);
  }

  lemma IdentityLeft(f: Entry, txt: seq<seq<byte>>, expires: u64)
    ensures SameIdentityOf(f, ServiceWithdrawn(f, true)) && SamePtr(f, ServiceWithdrawn(f, true))
    ensures SameIdentityOf(f, ServiceWithdrawn(f, false)) && SamePtr(f, ServiceWithdrawn(f, false))
    ensures SameIdentityOf(f, TxtAnnounced(f, txt, expires)) && SamePtr(f, TxtAnnounced(f, txt, expires))
  {
  }

  lemma SrvLeft(f: Entry, txt: seq<seq<byte>>, expires: u64)
    ensures var g := TxtAnnounced(f, txt, expires);
            && g.hasSrv == f.hasSrv && g.port == f.port && g.host == f.host && g.endpointChanged == f.endpointChanged
            && g.hasIpv4 == f.hasIpv4 && g.ipv4 == f.ipv4
  {
  }

  lemma SameSrvFollows(s: Search, e: Entry, f: Entry, g: Entry, h: History, now: u64)
    requires g.hasSrv == f.hasSrv && g.port == f.port && g.host == f.host && g.endpointChanged == f.endpointChanged
    requires g.hasIpv4 == f.hasIpv4 && g.ipv4 == f.ipv4
    ensures SrvFollows(f, h) ==> SrvFollows(g, h)
    ensures AddressFollows(s, e, f, h, now) ==> AddressFollows(s, e, g, h, now)
  {
    hide ReplacedInPlace, Moves, NameMatches, CachedIp;
  }

  lemma {:induction false} ServicePhase(s: Search, c: Cache, i: nat, e: Entry, records: seq<Record>, n: nat, now: u64)
    requires CacheOk(c.search, now) && i < |c.search.discovered| && n <= |records| && SameFrame(s, c.search)
    requires KnownEntry(s, e, now) && SameIdentityOf(e, c.search.discovered[i])
    requires ServiceFollows(s, e, c.search.discovered[i], records[..n], now)
    ensures var t := FoldService(c, records[n..], now).search;
            && SameFrame(s, t) && CacheOk(t, now)
            && SameIdentityOf(e, t.discovered[i]) && SamePtr(c.search.discovered[i], t.discovered[i])
            && ServiceFollows(s, e, t.discovered[i], records, now)
    decreases |records| - n
  {
    hide KnownEntry, ServiceFollows, StepService, ServiceOn, NameMatches, Distinct, AddressAgreement, EntrySane,
         AddressSane;
    assert records[n..] == [] || records[n..][1..] == records[n + 1..];
    if n == |records| {
      assert records[..n] == records;
    } else {
      var r, d := records[n], StepService(c, records[n], now);
      CacheNames(c.search, now);
      KnownInUse(s, e, now);
      ServiceKeeps(c, r, now);
      ServiceStepOn(c, i, r, now);
      SameOn(s, c.search, c.search.discovered[i], r, now);
      ServiceNext(s, e, c.search.discovered[i], records[..n], r, now);
      assert records[..n] + [r] == records[..n + 1];
      ServicePhase(s, d, i, e, records, n + 1, now);
    }
  }

  lemma CacheNames(s: Search, now: u64)
    requires CacheOk(s, now)
    ensures DistinctNames(s.discovered)
  {
  }

  lemma SameOn(s: Search, t: Search, f: Entry, r: Record, now: u64)
    requires SameFrame(s, t)
    ensures ServiceOn(t, f, r, now) == ServiceOn(s, f, r, now)
  {
    hide NameMatches, SrvAnnounced, CachedAddressApplied, CachedAddress, ServiceWithdrawn, TxtAnnounced, AcceptedTxt;
  }

  // ---------- Following the histories: PTR ----------

  predicate PtrFollows(e: Entry, f: Entry, h: History) {
    && f == e.(changes := f.changes, hasPtr := f.hasPtr, ptrExpires := f.ptrExpires, remove := f.remove)
    && Last(h) == Held(f.hasPtr, Listed) && (f.remove <==> Removes(e, h))
  }

  lemma PtrNext(s: Search, e: Entry, f: Entry, records: seq<Record>, r: Record, now: u64)
    requires PtrFollows(e, f, PtrHistory(s, e, records))
    ensures var g := if PtrNames(s, r, f.fqdn) then PtrOn(f, r, now) else f;
            PtrFollows(e, g, PtrHistory(s, e, records + [r]))
  {
    hide PtrNames, PtrFollows, PtrOn, Held;
    var h := PtrHistory(s, e, records);
    assert (records + [r])[..|records|] == records && h + [] == h;
    PtrSameName(e, f, h);
    PtrOnNext(e, f, h, r, now);
    if !PtrNames(s, r, e.fqdn) { assert PtrSays(s, e.fqdn, r) == []; }
  }

  lemma PtrSameName(e: Entry, f: Entry, h: History)
    requires PtrFollows(e, f, h)
    ensures f.fqdn == e.fqdn
  {
  }

  lemma PtrOnNext(e: Entry, f: Entry, h: History, r: Record, now: u64)
    requires PtrFollows(e, f, h)
    ensures PtrFollows(e, PtrOn(f, r, now), h + [if r.ttl == 0 then None else Some(Listed)])
  {
    hide Expiry;
  }

  lemma {:induction false} PtrPhase(s: Search, c: Cache, i: nat, e: Entry, records: seq<Record>, n: nat, now: u64)
    requires CacheOk(c.search, now) && i < |c.search.discovered| && n <= |records| && SameFrame(s, c.search) && e.inUse
    requires PtrFollows(e, c.search.discovered[i], PtrHistory(s, e, records[..n]))
    ensures var t := FoldPtr(c, records[n..], now).search;
            && SameFrame(s, t) && CacheOk(t, now) && PtrFollows(e, t.discovered[i], PtrHistory(s, e, records))
    decreases |records| - n
  {
    hide StepPtr, NameMatches, Distinct, AddressAgreement, EntrySane, AddressSane, PtrHistory, Last, PtrOn;
    assert records[n..] == [] || records[n..][1..] == records[n + 1..];
    if n == |records| {
      assert records[..n] == records;
    } else {
      var r := records[n];
      CacheNames(c.search, now);
      PtrKeeps(c, r, now);
      PtrStepOn(c, i, r, now);
      PtrNext(s, e, c.search.discovered[i], records[..n], r, now);
      assert records[..n] + [r] == records[..n + 1];
      PtrPhase(s, StepPtr(c, r, now), i, e, records, n + 1, now);
    }
  }

  // ---------- Following the histories: A ----------

  /** The entry h after some A records; without an SRV record they pass it by. */
  predicate AddressesFollow(h: Entry, f: Entry, a: History) {
    if !h.hasSrv then f == h
    else
      && f == h.(changes := f.changes, hasIpv4 := f.hasIpv4, ipv4 := f.ipv4, aExpires := f.aExpires,
                 nextAQuery := f.nextAQuery, endpointChanged := f.endpointChanged)
      && Last(a) == Held(f.hasIpv4, Ip(f.ipv4))
      && (f.endpointChanged <==> h.endpointChanged || ReplacedInPlace(a))
  }

  lemma AddressOnNext(h: Entry, f: Entry, a: History, host: seq<byte>, r: Record, room: bool, now: u64)
    requires AddressesFollow(h, f, a) && h.inUse && (h.hasSrv ==> NameMatches(host, h.host))
    ensures AddressesFollow(h, AddressOn(f, r, room, now), a + AddressSays(host, r, room))
  {
    hide Fold, NameMatches, Expiry, ReplacedInPlace, Last, AddressesFollow, AddressWithdrawn, AddressAnnounced;
    assert a + [] == a;
    SameHosted(h, f, a, host, r.owner);
    AddressGone(h, f, a, r.owner);
    if r.data.A? { AddressCame(h, f, a, r.owner, r.data.address, Expiry(now, r.ttl)); }
  }

  /** The entry is hosted by a name exactly if the history is about it. */
  lemma SameHosted(h: Entry, f: Entry, a: History, host: seq<byte>, owner: seq<byte>)
    requires AddressesFollow(h, f, a) && h.inUse && (h.hasSrv ==> NameMatches(host, h.host))
    ensures HostedBy(f, owner) <==> h.hasSrv && NameMatches(host, owner)
    ensures !h.hasSrv ==> f == h
    ensures !h.hasSrv ==> forall b: History :: AddressesFollow(h, f, b)
    ensures !HostedBy(f, owner) ==> AddressWithdrawn(f, owner) == f
    ensures !HostedBy(f, owner) ==> forall ipv4, expires :: AddressAnnounced(f, owner, ipv4, expires) == f
  {
    hide Fold, ReplacedInPlace, Last;
  }

  lemma AddressGone(h: Entry, f: Entry, a: History, owner: seq<byte>)
    requires AddressesFollow(h, f, a)
    ensures HostedBy(f, owner) ==> AddressesFollow(h, AddressWithdrawn(f, owner), a + [None])
  {
    hide NameMatches, ReplacedInPlace, Last;
    Appended(a, None);
  }

  lemma AddressCame(h: Entry, f: Entry, a: History, owner: seq<byte>, ipv4: Ipv4, expires: u64)
    requires AddressesFollow(h, f, a)
    ensures HostedBy(f, owner) ==>
              AddressesFollow(h, AddressAnnounced(f, owner, ipv4, expires), a + [Some(Ip(ipv4))])
  {
    hide NameMatches, ReplacedInPlace, Last;
    Appended(a, Some(Ip(ipv4)));
  }

  lemma {:induction false} AddressPhase(s: Search, i: nat, h: Entry, first: Option<Data>, a: seq<Address>,
                                        host: seq<byte>, records: seq<Record>, n: nat, now: u64)
    requires i < |s.discovered| && n <= |records| && h.inUse && (h.hasSrv ==> NameMatches(host, h.host))
    requires s.addresses == Table(a, records[..n], now)
    requires AddressesFollow(h, s.discovered[i], AddressHistory(first, a, host, records[..n], now))
    ensures var t := FoldAddress(s, records[n..], now);
            && |t.discovered| == |s.discovered| && t.addresses == Table(a, records, now)
            && AddressesFollow(h, t.discovered[i], AddressHistory(first, a, host, records, now))
    decreases |records| - n
  {
    hide StepAddress, AddressesFollow, NameMatches, AddressOn, TableStep, AddressSays, HasRoom;
    assert records[n..] == [] || records[n..][1..] == records[n + 1..];
    if n == |records| {
      assert records[..n] == records;
    } else {
      var r := records[n];
      AddressStepOn(s, i, r, now);
      AddressOnNext(h, s.discovered[i], AddressHistory(first, a, host, records[..n], now), host, r,
                    HasRoom(s.addresses, r.owner), now);
      assert records[..n + 1][..n] == records[..n];
      AddressPhase(StepAddress(s, r, now), i, h, first, a, host, records, n + 1, now);
    }
  }

  // ---------- The whole packet ----------

  /** A known entry after any packet: every record as its history ends, and flagged exactly if data was replaced in
      place. */
  predicate PacketFollows(s: Search, e: Entry, f: Entry, records: seq<Record>, now: u64) {
    var srv, txt, a := SrvHistory(s, e, records), TxtHistory(e, records), Addresses(s, e, records, now);
    && SameIdentityOf(e, f) && Last(PtrHistory(s, e, records)) == Held(f.hasPtr, Listed)
    && (f.remove <==> Removes(e, PtrHistory(s, e, records)))
    && Last(srv) == Held(f.hasSrv, Endpoint(f.port, Fold(f.host)))
    && Last(txt) == Held(f.hasTxt, Strings(f.txt)) && (f.txtChanged <==> ReplacedInPlace(txt))
    && (if f.hasSrv then Last(a) == Held(f.hasIpv4, Ip(f.ipv4)) else AddressFollows(s, e, f, srv, now))
    && (f.endpointChanged <==> ReplacedInPlace(srv) || (f.hasSrv && ReplacedInPlace(a)))
  }

  lemma PacketParts(c: Cache, i: nat, records: seq<Record>, now: u64)
    requires CacheOk(c.search, now) && i < |c.search.discovered| && KnownEntry(c.search, c.search.discovered[i], now)
    ensures var t := PacketApplied(c, records, now);
            && |t.discovered| == |c.search.discovered| && t.addresses == Table(c.search.addresses, records, now)
            && PacketFollows(c.search, c.search.discovered[i], t.discovered[i], records, now)
  {
    hide CacheOk, KnownEntry, ServiceFollows, PtrFollows, AddressesFollow, NameMatches, FoldPtr, FoldService,
         FoldAddress, FollowedUp, PacketFollows, SameIdentityOf, Brought;
    var s, e := c.search, c.search.discovered[i];
    KnownInUse(s, e, now);
    Start(s, e, now);
    assert records[..0] == [] && records[0..] == records;
    PtrPhase(s, c, i, e, records, 0, now);
    var p := FoldPtr(c, records, now);
    AfterPtr(s, e, p.search.discovered[i], PtrHistory(s, e, records), now);
    ServicePhase(s, p, i, e, records, 0, now);
    var v := FoldService(p, records, now).search;
    var h, srv := v.discovered[i], SrvHistory(s, e, records);
    var host := if Last(srv).Some? && Last(srv).value.Endpoint? then Last(srv).value.host else [];
    StartAddress(s, e, h, records, host, now);
    AddressPhase(v, i, h, Brought(s, e, srv, now), s.addresses, host, records, 0, now);
    var w := FoldAddress(v, records, now);
    Together(s, e, p.search.discovered[i], h, w.discovered[i], records, now);
  }

  lemma Start(s: Search, e: Entry, now: u64)
    requires KnownEntry(s, e, now)
    ensures PtrFollows(e, e, PtrHistory(s, e, []))
  {
  }

  lemma AfterPtr(s: Search, e: Entry, p: Entry, h: History, now: u64)
    requires KnownEntry(s, e, now) && PtrFollows(e, p, h)
    ensures ServiceFollows(s, e, p, [], now) && SameIdentityOf(e, p)
  {
    hide Fold, Agrees;
  }

  lemma StartAddress(s: Search, e: Entry, h: Entry, records: seq<Record>, host: seq<byte>, now: u64)
    requires e.inUse && ServiceFollows(s, e, h, records, now) && SameIdentityOf(e, h)
    requires var srv := SrvHistory(s, e, records);
             host == if Last(srv).Some? && Last(srv).value.Endpoint? then Last(srv).value.host else []
    ensures h.inUse && (h.hasSrv ==> NameMatches(host, h.host))
    ensures AddressesFollow(h, h, [Brought(s, e, SrvHistory(s, e, records), now)])
  {
    hide Fold, Moves, CachedIp;
    FoldTwice(h.host);
    var srv := SrvHistory(s, e, records);
    if h.hasSrv { SameCached(s, host, h.host, now); }
    NotReplaced(Brought(s, e, srv, now));
  }

  lemma NotReplaced(x: Option<Data>)
    ensures !ReplacedInPlace([x])
  {
  }

  lemma Together(s: Search, e: Entry, p: Entry, h: Entry, f: Entry, records: seq<Record>, now: u64)
    requires PtrFollows(e, p, PtrHistory(s, e, records)) && SameIdentityOf(e, h) && SamePtr(p, h)
    requires ServiceFollows(s, e, h, records, now) && AddressesFollow(h, f, Addresses(s, e, records, now))
    ensures PacketFollows(s, e, FollowedUp(f, now), records, now)
  {
    hide Fold, ReplacedInPlace, Moves, CachedIp, Addresses, SrvHistory, TxtHistory, PtrHistory, NameMatches;
  }

  /** For a known entry and any packet, the guest's view stays true exactly if the packet does not deceive it. */
  lemma RevivalExact(c: Cache, i: nat, g: GuestState, records: seq<Record>, now: u64)
    requires CacheOk(c.search, now) && i < |c.search.discovered|
    requires c.search.discovered[i].inUse && c.search.discovered[i].notified && Settled(c.search.discovered[i], g)
    ensures var t := PacketApplied(c, records, now);
            && |t.discovered| == |c.search.discovered|
            && (Honest(t.discovered[i], g) <==> !Deceives(c.search, c.search.discovered[i], records, now))
  {
    hide CacheOk, KnownEntry, PacketApplied, PacketFollows, Settled, Honest, Deceives;
    SettledIsKnown(c.search, i, g, now);
    PacketParts(c, i, records, now);
    PartsDecide(c.search, c.search.discovered[i], PacketApplied(c, records, now).discovered[i], g, records, now);
  }

  lemma PartsDecide(s: Search, e: Entry, f: Entry, g: GuestState, records: seq<Record>, now: u64)
    requires e.inUse && e.notified && Settled(e, g) && PacketFollows(s, e, f, records, now)
    ensures Honest(f, g) <==> !Deceives(s, e, records, now)
  {
    hide Fold, ReplacedInPlace, Moves, CachedIp, Addresses, PtrHistory;
    FirstSrv(s, e, records);
    FirstTxt(e, records);
  }

  lemma {:induction false} FirstSrv(s: Search, e: Entry, records: seq<Record>)
    ensures SrvHistory(s, e, records)[0] == Some(Endpoint(e.port, Fold(e.host)))
    decreases |records|
  {
    hide SrvSays;
    if records == [] {
    } else {
      FirstSrv(s, e, records[..|records| - 1]);
    }
  }

  lemma {:induction false} FirstTxt(e: Entry, records: seq<Record>)
    ensures TxtHistory(e, records)[0] == Some(Strings(e.txt))
    decreases |records|
  {
    hide TxtSays;
    if records == [] {
    } else {
      FirstTxt(e, records[..|records| - 1]);
    }
  }

  // ---------- All entries of a search ----------

  /** The packet deceives the guest about no entry it knows. */
  predicate Undeceived(s: Search, records: seq<Record>, now: u64) {
    forall i :: 0 <= i < |s.discovered| && s.discovered[i].inUse && s.discovered[i].notified ==>
      !Deceives(s, s.discovered[i], records, now)
  }

  /** No entry becomes known: that takes a dispatch. */
  predicate NoneKnown(s: Search, t: Search) {
    && |t.discovered| == |s.discovered|
    && forall i :: 0 <= i < |s.discovered| && t.discovered[i].inUse && t.discovered[i].notified ==>
         s.discovered[i].inUse && s.discovered[i].notified
  }

  lemma AllocationUnknown(c: Cache, fqdn: seq<byte>)
    ensures NoneKnown(c.search, AllocateEntry(c, fqdn).0.search)
  {
    hide NameMatches, InstanceName, FindEntry, FreeEntry, WithEntry, NoneKnown;
    NoneKnownSame(c.search);
    var free := FreeEntry(c.search.discovered);
    if free < |c.search.discovered| {
      StoredFresh(c.search, free, EMPTY_ENTRY);
      if InstanceName(c.search.serviceFqdn, fqdn).Some? {
        StoredFresh(c.search, free, EMPTY_ENTRY.(inUse := true, token := Some(c.nextToken), fqdn := fqdn,
                                                 name := InstanceName(c.search.serviceFqdn, fqdn).value));
      }
    }
  }

  lemma StoredFresh(s: Search, j: nat, e: Entry)
    requires j < |s.discovered| && !e.notified
    ensures NoneKnown(s, WithEntry(s, j, e))
  {
  }

  lemma StoredUnknown(s: Search, j: nat, e: Entry)
    requires j < |s.discovered| && e.inUse == s.discovered[j].inUse && e.notified == s.discovered[j].notified
    ensures NoneKnown(s, WithEntry(s, j, e))
  {
  }

  lemma PtrStepUnknown(c: Cache, r: Record, now: u64)
    ensures NoneKnown(c.search, StepPtr(c, r, now).search)
  {
    hide NameMatches, AllocateEntry, WithEntry, Expiry, FindEntry;
    if r.data.Ptr? && InClass(r) && NameMatches(r.owner, c.search.serviceFqdn) {
      var i := FindEntry(c.search.discovered, r.data.target);
      if r.ttl == 0 {
        if i < |c.search.discovered| {
          var e := c.search.discovered[i];
          StoredUnknown(c.search, i, e.(changes := e.changes + 1, hasPtr := false, ptrExpires := 0, remove := true));
        }
      } else {
        AllocationUnknown(c, r.data.target);
        var (c', j) := AllocateEntry(c, r.data.target);
        if j < |c'.search.discovered| {
          var e := c'.search.discovered[j];
          StoredUnknown(c'.search, j, e.(changes := e.changes + 1, hasPtr := true, ptrExpires := Expiry(now, r.ttl),
                                         remove := false));
        }
      }
    }
  }

  lemma ServiceStepUnknown(c: Cache, r: Record, now: u64)
    ensures NoneKnown(c.search, StepService(c, r, now).search)
  {
    hide NameMatches, AllocateEntry, WithEntry, Expiry, FindEntry, SrvApplied, TxtAnnounced, ServiceWithdrawn,
         AcceptedTxt, InstanceName, NoneKnown, SameIdentityOf;
    AllocationUnknown(c, r.owner);
    NoneKnownSame(c.search);
    if InClass(r) && (r.data.Srv? || r.data.Txt?) {
      var (c', j) := ServiceEntry(c, r);
      if j < |c'.search.discovered| {
        var e := c'.search.discovered[j];
        var f := ServiceOn(c'.search, e, r, now);
        ServiceOnUnknown(c'.search, e, r, now);
        StoredUnknown(c'.search, j, f);
        NoneKnownOn(c.search, c'.search, WithEntry(c'.search, j, f));
      }
    }
  }

  lemma ServiceOnUnknown(s: Search, e: Entry, r: Record, now: u64)
    ensures ServiceOn(s, e, r, now).inUse == e.inUse && ServiceOn(s, e, r, now).notified == e.notified
  {
    hide CachedAddress, CachedAddressApplied, SrvAnnounced, Expiry, EffectivePort, AcceptedTxt, ServiceWithdrawn,
         TxtAnnounced;
    if r.data.Srv? {
      SrvKeepsIdentity(e, EffectivePort(s, r.data.port), r.data.target, Expiry(now, r.ttl),
                       CachedAddress(s.addresses, r.data.target, now));
    }
    WithdrawnUnknown(e, r.data.Srv?);
    if r.data.Txt? && AcceptedTxt(r).Some? { TxtUnknown(e, AcceptedTxt(r).value, Expiry(now, r.ttl)); }
  }

  lemma WithdrawnUnknown(e: Entry, srv: bool)
    ensures var f := ServiceWithdrawn(e, srv); f.inUse == e.inUse && f.notified == e.notified
  {
  }

  lemma TxtUnknown(e: Entry, txt: seq<seq<byte>>, expires: u64)
    ensures var f := TxtAnnounced(e, txt, expires); f.inUse == e.inUse && f.notified == e.notified
  {
  }

  lemma NoneKnownSame(s: Search)
    ensures NoneKnown(s, s)
  {
  }

  lemma NoneKnownOn(s: Search, m: Search, t: Search)
    requires NoneKnown(s, m) && NoneKnown(m, t)
    ensures NoneKnown(s, t)
  {
  }

  lemma AddressStepUnknown(s: Search, r: Record, now: u64)
    ensures NoneKnown(s, StepAddress(s, r, now))
  {
    hide NameMatches, AllocateAddress, FindAddress, Expiry;
  }

  lemma {:induction false} PtrsUnknown(c: Cache, records: seq<Record>, now: u64)
    ensures NoneKnown(c.search, FoldPtr(c, records, now).search)
    decreases |records|
  {
    hide NoneKnown, StepPtr;
    NoneKnownSame(c.search);
    if records == [] {
    } else {
      var d := StepPtr(c, records[0], now);
      PtrStepUnknown(c, records[0], now);
      PtrsUnknown(d, records[1..], now);
      NoneKnownOn(c.search, d.search, FoldPtr(d, records[1..], now).search);
    }
  }

  lemma {:induction false} ServicesUnknown(c: Cache, records: seq<Record>, now: u64)
    ensures NoneKnown(c.search, FoldService(c, records, now).search)
    decreases |records|
  {
    hide NoneKnown, StepService;
    NoneKnownSame(c.search);
    if records == [] {
    } else {
      var d := StepService(c, records[0], now);
      ServiceStepUnknown(c, records[0], now);
      ServicesUnknown(d, records[1..], now);
      NoneKnownOn(c.search, d.search, FoldService(d, records[1..], now).search);
    }
  }

  lemma {:induction false} AddressesUnknown(s: Search, records: seq<Record>, now: u64)
    ensures NoneKnown(s, FoldAddress(s, records, now))
    decreases |records|
  {
    hide NoneKnown, StepAddress;
    NoneKnownSame(s);
    if records == [] {
    } else {
      var t := StepAddress(s, records[0], now);
      AddressStepUnknown(s, records[0], now);
      AddressesUnknown(t, records[1..], now);
      NoneKnownOn(s, t, FoldAddress(t, records[1..], now));
    }
  }

  lemma PacketUnknown(c: Cache, records: seq<Record>, now: u64)
    ensures NoneKnown(c.search, PacketApplied(c, records, now))
  {
    hide FoldPtr, FoldService, FoldAddress;
    var p := FoldPtr(c, records, now);
    var v := FoldService(p, records, now);
    PtrsUnknown(c, records, now);
    ServicesUnknown(p, records, now);
    AddressesUnknown(v.search, records, now);
  }

  /** A settled search is honest after a packet exactly if the packet deceives the guest about none of its entries. */
  lemma PacketHonestExact(c: Cache, records: seq<Record>, now: u64, log: seq<Event>)
    requires CacheOk(c.search, now) && c.search.inUse && AllSettled(c.search, log)
    ensures AllHonest(PacketApplied(c, records, now), log) <==> Undeceived(c.search, records, now)
  {
    hide CacheOk, PacketApplied, Settled, Deceives, Guest;
    var s, t := c.search, PacketApplied(c, records, now);
    PacketUnknown(c, records, now);
    forall i | 0 <= i < |s.discovered|
      ensures Honest(t.discovered[i], GuestOf(log, t.discovered[i]))
         <==> !(s.discovered[i].inUse && s.discovered[i].notified && Deceives(s, s.discovered[i], records, now))
    {
      if s.discovered[i].inUse && s.discovered[i].notified { OneHonestExact(c, i, records, now, log); }
    }
  }

  lemma OneHonestExact(c: Cache, i: nat, records: seq<Record>, now: u64, log: seq<Event>)
    requires CacheOk(c.search, now) && i < |c.search.discovered|
    requires var e := c.search.discovered[i]; e.inUse && e.notified && Settled(e, GuestOf(log, e))
    ensures var t, e := PacketApplied(c, records, now), c.search.discovered[i];
            && |t.discovered| == |c.search.discovered| && t.discovered[i].token == e.token
            && (Honest(t.discovered[i], GuestOf(log, t.discovered[i])) <==> !Deceives(c.search, e, records, now))
            && (t.discovered[i].Complete() ==> !t.discovered[i].remove) && GuestOf(log, t.discovered[i]).Known?
  {
    hide CacheOk, PacketApplied, Deceives, Guest, KnownEntry, PtrHistory, SrvHistory, TxtHistory, Addresses;
    var e := c.search.discovered[i];
    SettledIsKnown(c.search, i, GuestOf(log, e), now);
    RevivalExact(c, i, GuestOf(log, e), records, now);
    PacketParts(c, i, records, now);
  }

  /** And what it deceives the guest about stays so: the dispatch tells nothing of it. */
  lemma DeceivedStays(c: Cache, records: seq<Record>, now: u64, log: seq<Event>, t: Search, log': seq<Event>)
    requires CacheOk(c.search, now) && c.search.inUse && AllSettled(c.search, log) && t.inUse
    requires DispatchedSearch(PacketApplied(c, records, now), t)
    requires AllTold(PacketApplied(c, records, now), t, log, log') && AllSettled(t, log')
    ensures Undeceived(c.search, records, now)
  {
    hide CacheOk, PacketApplied, Settled, Deceives, Guest, Honest, GuestAfter, DispatchedEntry, Rotates;
    var s, m := c.search, PacketApplied(c, records, now);
    PacketUnknown(c, records, now);
    forall i | 0 <= i < |s.discovered| && s.discovered[i].inUse && s.discovered[i].notified
      ensures !Deceives(s, s.discovered[i], records, now)
    {
      OneHonestExact(c, i, records, now, log);
      assert TurnTold(m.discovered[i], t.discovered[i], log, log');
      assert Settled(t.discovered[i], GuestOf(log', t.discovered[i]));
      SettledWasHonest(m.discovered[i], GuestOf(log, m.discovered[i]), KeptToken(m.discovered[i], t.discovered[i]),
                       GuestOf(log', t.discovered[i]));
    }
  }

  lemma SettledWasHonest(e: Entry, g: GuestState, token: Option<nat>, g': GuestState)
    requires Settled(DispatchedEntry(e, token), g') && g.Known? && (e.Complete() ==> !e.remove)
    requires e.inUse && !e.remove && e.Complete() ==> g' == GuestAfter(e, g)
    ensures Honest(e, g)
  {
    hide NameMatches;
  }

  /** A packet without revivals deceives nobody. */
  lemma NoRevivalUndeceived(c: Cache, records: seq<Record>, now: u64, log: seq<Event>)
    requires CacheOk(c.search, now) && c.search.inUse && AllSettled(c.search, log) && NoRevival(records)
    ensures Undeceived(c.search, records, now)
  {
    hide CacheOk, PacketApplied, Undeceived, AllHonest, NoRevival, AllSettled;
    PacketHonest(c, records, now, log);
    PacketHonestExact(c, records, now, log);
  }
}
