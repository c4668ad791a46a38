/** The record caches of one search: what each received record and each expiry does to them. */
module ZeroconfCache {
  import opened Options
  import opened WireNames
  import opened WireParse

  const MAX_SEARCHES := 4
  const MAX_DISCOVERED := 64
  const MAX_ADDRESSES := 32
  const MAX_TXT_RECORDS := 16
  const UINT64_MAX := 0xffff_ffff_ffff_ffff
  const FOLLOWUP_INTERVAL := 1000

  type u64 = x: int | 0 <= x <= 0xffff_ffff_ffff_ffff

  datatype Address = Address(inUse: bool, host: seq<byte>, ipv4: Ipv4, expires: u64)

  datatype Entry = Entry(
    inUse: bool, token: Option<nat>, fqdn: seq<byte>, name: seq<byte>,
    host: seq<byte>, ipv4: Ipv4, port: u16, txt: seq<seq<byte>>,
    ptrExpires: u64, srvExpires: u64, txtExpires: u64, aExpires: u64,
    nextSrvQuery: nat, nextTxtQuery: nat, nextAQuery: nat, changes: nat,
    hasPtr: bool, hasSrv: bool, hasTxt: bool, hasIpv4: bool,
    notified: bool, remove: bool, endpointChanged: bool, txtChanged: bool)
  {
    /** discovered_complete */
    predicate Complete() {
      hasPtr && hasSrv && hasTxt && hasIpv4
    }
  }

  datatype Search = Search(
    inUse: bool, generation: nat, serviceType: seq<byte>, domain: seq<byte>, serviceFqdn: seq<byte>,
    found: bool, update: bool, lost: bool, nextQuery: nat,
    discovered: seq<Entry>, addresses: seq<Address>)
  {
    predicate Shaped() {
      |discovered| == MAX_DISCOVERED && |addresses| == MAX_ADDRESSES
    }
  }

  const NO_IPV4: Ipv4 := [0, 0, 0, 0]

  /** A slot after memset. */
  const EMPTY_ENTRY := Entry(false, None, [], [], [], NO_IPV4, 0, [], 0, 0, 0, 0, 0, 0, 0, 0,
                             false, false, false, false, false, false, false, false)

  const EMPTY_ADDRESS := Address(false, [], NO_IPV4, 0)

  function EmptySearch(): (s: Search)
    ensures s.Shaped() && !s.inUse
  {
    Search(false, 0, [], [], [], false, false, false, 0,
           seq(MAX_DISCOVERED, _ => EMPTY_ENTRY), seq(MAX_ADDRESSES, _ => EMPTY_ADDRESS))
  }

  // ---------- Names ----------

  function Lower(c: byte): byte {
    if 65 <= c <= 90 then c + 32 else c
  }

  function Fold(name: seq<byte>): seq<byte> {
    seq(|name|, i requires 0 <= i < |name| => Lower(name[i]))
  }

  /** name_matches: equal up to ASCII case. */
  predicate NameMatches(left: seq<byte>, right: seq<byte>) {
    Fold(left) == Fold(right)
  }

  lemma MatchesEmpty(left: seq<byte>, right: seq<byte>)
    requires NameMatches(left, right)
    ensures |left| == |right|
  {
    assert |Fold(left)| == |left| && |Fold(right)| == |right|;
  }

  /** The instance part of a name that ends in the search's service name. */
  function InstanceName(serviceFqdn: seq<byte>, fqdn: seq<byte>): Option<seq<byte>>
  {
    var n := |fqdn| - |serviceFqdn| - 1;
    if n <= 0 || fqdn[n] != DOT || !NameMatches(fqdn[n + 1..], serviceFqdn) || n >= MAX_NAME then None
    else Some(fqdn[..n])
  }

  const KIWI: seq<byte> :=
    [95, 80, 82, 79, 74, 69, 67, 84, 95, 75, 73, 87, 73, 46, 95, 116, 99, 112]  // "_PROJECT_KIWI._tcp"
  const LOCAL: seq<byte> := [108, 111, 99, 97, 108]  // "local"

  /** effective_service_port: one known host advertises its fixed port with the bytes swapped. */
  function EffectivePort(s: Search, advertised: u16): u16 {
    if advertised == 2560 && NameMatches(s.serviceType, KIWI) && NameMatches(s.domain, LOCAL) then 10 else advertised
  }

  // ---------- Time ----------

  /** expiry_from_ttl, saturating. */
  function Expiry(now: u64, ttl: u32): u64 {
    if UINT64_MAX - now < ttl * 1000 then UINT64_MAX else now + ttl * 1000
  }

  lemma ExpiryBounds(now: u64, ttl: u32)
    requires ttl > 0
    ensures 0 < Expiry(now, ttl)
    ensures now < UINT64_MAX ==> now < Expiry(now, ttl)
  {
  }

  // ---------- Lookups ----------

  predicate EntryNamed(e: Entry, fqdn: seq<byte>) {
    e.inUse && NameMatches(e.fqdn, fqdn)
  }

  /** Index of the first entry in use with this name, or the number of entries. */
  function FindEntry(d: seq<Entry>, fqdn: seq<byte>): (i: nat)
    ensures i <= |d|
    ensures i < |d| ==> EntryNamed(d[i], fqdn)
    ensures forall j :: 0 <= j < i ==> !EntryNamed(d[j], fqdn)
  {
    if d == [] then 0
    else if EntryNamed(d[0], fqdn) then 0
    else
      var i := FindEntry(d[1..], fqdn);
      assert forall j :: 0 < j < 1 + i ==> d[j] == d[1..][j - 1];
      1 + i
  }

  function FreeEntry(d: seq<Entry>): (i: nat)
    ensures i <= |d|
    ensures i < |d| ==> !d[i].inUse
    ensures forall j :: 0 <= j < i ==> d[j].inUse
  {
    if d == [] then 0
    else if !d[0].inUse then 0
    else
      var i := FreeEntry(d[1..]);
      assert forall j :: 0 < j < 1 + i ==> d[j] == d[1..][j - 1];
      1 + i
  }

  predicate AddressNamed(a: Address, host: seq<byte>) {
    a.inUse && NameMatches(a.host, host)
  }

  function FindAddress(a: seq<Address>, host: seq<byte>): (i: nat)
    ensures i <= |a|
    ensures i < |a| ==> AddressNamed(a[i], host)
    ensures forall j :: 0 <= j < i ==> !AddressNamed(a[j], host)
  {
    if a == [] then 0
    else if AddressNamed(a[0], host) then 0
    else
      var i := FindAddress(a[1..], host);
      assert forall j :: 0 < j < 1 + i ==> a[j] == a[1..][j - 1];
      1 + i
  }

  /** Lookups do not depend on the case of a name. */
  lemma {:induction false} SameFound(a: seq<Address>, left: seq<byte>, right: seq<byte>)
    requires NameMatches(left, right)
    ensures FindAddress(a, left) == FindAddress(a, right)
  {
    if a == [] {
    } else {
      SameFound(a[1..], left, right);
    }
  }

  function FreeAddress(a: seq<Address>): (i: nat)
    ensures i <= |a|
    ensures i < |a| ==> !a[i].inUse
    ensures forall j :: 0 <= j < i ==> a[j].inUse
  {
    if a == [] then 0
    else if !a[0].inUse then 0
    else
      var i := FreeAddress(a[1..]);
      assert forall j :: 0 < j < 1 + i ==> a[j] == a[1..][j - 1];
      1 + i
  }

  // ---------- Steps on the caches ----------

  /** A search together with the identity counter its new entries draw from. */
  datatype Cache = Cache(search: Search, nextToken: nat)

  function WithEntry(s: Search, i: nat, e: Entry): (r: Search)
    requires i < |s.discovered|
    ensures r.Shaped() <==> s.Shaped()
  {
    s.(discovered := s.discovered[i := e])
  }

  /** allocate_discovered: the existing entry, or a new one in the first free slot; |discovered| when there is none. */
  function AllocateEntry(c: Cache, fqdn: seq<byte>): (r: (Cache, nat))
    ensures r.1 <= |c.search.discovered| == |r.0.search.discovered|
    ensures r.1 < |r.0.search.discovered| ==> EntryNamed(r.0.search.discovered[r.1], fqdn)
  {
    var d := c.search.discovered;
    var existing, free := FindEntry(d, fqdn), FreeEntry(d);
    if existing < |d| then (c, existing)
    else if free == |d| then (c, |d|)
    else if |fqdn| >= MAX_NAME then (Cache(WithEntry(c.search, free, EMPTY_ENTRY), c.nextToken), |d|)
    else match InstanceName(c.search.serviceFqdn, fqdn)
         case None => (Cache(WithEntry(c.search, free, EMPTY_ENTRY), c.nextToken), |d|)
         case Some(name) =>
           var entry := EMPTY_ENTRY.(inUse := true, token := Some(c.nextToken), fqdn := fqdn, name := name);
           (Cache(WithEntry(c.search, free, entry), c.nextToken + 1), free)
  }

  predicate InClass(r: Record) {
    r.class_ == CLASS_IN
  }

  function StepPtr(c: Cache, r: Record, now: u64): Cache
  {
    if !r.data.Ptr? || !InClass(r) || !NameMatches(r.owner, c.search.serviceFqdn) then c
    else if r.ttl == 0 then
      var i := FindEntry(c.search.discovered, r.data.target);
      if i == |c.search.discovered| then c
      else
        var e := c.search.discovered[i];
        c.(search := WithEntry(c.search, i,
                               e.(changes := e.changes + 1, hasPtr := false, ptrExpires := 0, remove := true)))
    else
      var (c', i) := AllocateEntry(c, r.data.target);
      if i == |c'.search.discovered| then c'
      else
        var e := c'.search.discovered[i];
        c'.(search := WithEntry(c'.search, i, e.(changes := e.changes + 1, hasPtr := true,
                                                 ptrExpires := Expiry(now, r.ttl), remove := false)))
  }

  /** The cached address for a host, if it has not expired. */
  function CachedAddress(a: seq<Address>, host: seq<byte>, now: u64): Option<Address> {
    var i := FindAddress(a, host);
    if i == |a| || a[i].expires == 0 || a[i].expires <= now then None else Some(a[i])
  }

  /** apply_cached_address */
  function CachedAddressApplied(e: Entry, cached: Option<Address>): Entry
  {
    if !e.hasSrv || cached.None? then e
    else
      e.(changes := e.changes + 1,
         endpointChanged := e.endpointChanged || (e.hasIpv4 && e.ipv4 != cached.value.ipv4),
         ipv4 := cached.value.ipv4, aExpires := cached.value.expires, hasIpv4 := true)
  }

  function ServiceWithdrawn(e: Entry, srv: bool): Entry {
    if srv then e.(changes := e.changes + 1, hasSrv := false, srvExpires := 0, nextSrvQuery := 0)
    else e.(changes := e.changes + 1, hasTxt := false, txtExpires := 0, nextTxtQuery := 0)
  }

  predicate HostChanged(e: Entry, target: seq<byte>) {
    e.host != [] && !NameMatches(e.host, target)
  }

  /** An announced SRV record before the cached address is looked up. */
  function SrvAnnounced(e: Entry, port: u16, target: seq<byte>, expires: u64): Entry {
    var moved := HostChanged(e, target);
    e.(changes := e.changes + 1,
       endpointChanged := e.endpointChanged || (e.hasSrv && (e.port != port || moved)),
       hasIpv4 := e.hasIpv4 && !moved, aExpires := if moved then 0 else e.aExpires,
       nextAQuery := if moved then 0 else e.nextAQuery,
       port := port, host := target, hasSrv := true, srvExpires := expires)
  }

  /** An announced SRV record, with the cached address of its target. */
  function SrvApplied(s: Search, e: Entry, port: u16, target: seq<byte>, now: u64, ttl: u32): Entry {
    CachedAddressApplied(SrvAnnounced(e, EffectivePort(s, port), target, Expiry(now, ttl)),
                         CachedAddress(s.addresses, target, now))
  }

  /** The strings of a TXT record as the guest can take them: at most 16, none with a zero byte. */
  function AcceptedTxt(r: Record): Option<seq<seq<byte>>>
    requires r.data.Txt?
  {
    match TxtStrings(r.data.bytes)
    case None => None
    case Some(strings) =>
      if |strings| <= MAX_TXT_RECORDS && forall i :: 0 <= i < |strings| ==> NulFree(strings[i]) then Some(strings)
      else None
  }

  function TxtAnnounced(e: Entry, txt: seq<seq<byte>>, expires: u64): Entry {
    e.(changes := e.changes + 1, txtChanged := e.txtChanged || (e.hasTxt && e.txt != txt),
       txt := txt, hasTxt := true, txtExpires := expires)
  }

  /** The entry a service record is about: found, or made for an announcement of this search's service. */
  function ServiceEntry(c: Cache, r: Record): (res: (Cache, nat))
    ensures res.1 <= |c.search.discovered| == |res.0.search.discovered|
  {
    var i := FindEntry(c.search.discovered, r.owner);
    if i < |c.search.discovered| || r.ttl == 0 || InstanceName(c.search.serviceFqdn, r.owner).None? then (c, i)
    else AllocateEntry(c, r.owner)
  }

  function StepService(c: Cache, r: Record, now: u64): Cache
  {
    if !InClass(r) || !(r.data.Srv? || r.data.Txt?) then c
    else
      var (c', i) := ServiceEntry(c, r);
      if i == |c'.search.discovered| then c'
      else
        var e := c'.search.discovered[i];
        if r.ttl == 0 then c'.(search := WithEntry(c'.search, i, ServiceWithdrawn(e, r.data.Srv?)))
        else if r.data.Srv? then
          c'.(search := WithEntry(c'.search, i, SrvApplied(c'.search, e, r.data.port, r.data.target, now, r.ttl)))
        else match AcceptedTxt(r)
             case None => c'
             case Some(txt) => c'.(search := WithEntry(c'.search, i, TxtAnnounced(e, txt, Expiry(now, r.ttl))))
  }

  predicate HostedBy(e: Entry, host: seq<byte>) {
    e.inUse && e.hasSrv && NameMatches(e.host, host)
  }

  function AddressWithdrawn(e: Entry, host: seq<byte>): Entry {
    if HostedBy(e, host) then e.(changes := e.changes + 1, hasIpv4 := false, aExpires := 0, nextAQuery := 0) else e
  }

  function AddressAnnounced(e: Entry, host: seq<byte>, ipv4: Ipv4, expires: u64): Entry {
    if HostedBy(e, host) then
      e.(changes := e.changes + 1, endpointChanged := e.endpointChanged || (e.hasIpv4 && e.ipv4 != ipv4),
         ipv4 := ipv4, hasIpv4 := true, aExpires := expires)
    else e
  }

  function MapEntries(d: seq<Entry>, f: Entry -> Entry): (r: seq<Entry>)
    ensures |r| == |d|
    ensures forall i :: 0 <= i < |d| ==> r[i] == f(d[i])
  {
    seq(|d|, i requires 0 <= i < |d| => f(d[i]))
  }

  /** allocate_address: |addresses| when the table is full or the name is empty. */
  function AllocateAddress(a: seq<Address>, host: seq<byte>): (r: (seq<Address>, nat))
    ensures |r.0| == |a| && r.1 <= |a|
  {
    var existing, free := FindAddress(a, host), FreeAddress(a);
    if existing < |a| then (a, existing)
    else if free == |a| || host == [] || |host| >= MAX_NAME then (a, |a|)
    else (a[free := Address(true, host, NO_IPV4, 0)], free)
  }

  function StepAddress(s: Search, r: Record, now: u64): (t: Search)
  {
    if !r.data.A? || !InClass(r) then s
    else if r.ttl == 0 then
      var i := FindAddress(s.addresses, r.owner);
      var addresses := if i < |s.addresses| then s.addresses[i := EMPTY_ADDRESS] else s.addresses;
      s.(addresses := addresses, discovered := MapEntries(s.discovered, e => AddressWithdrawn(e, r.owner)))
    else
      var (addresses, i) := AllocateAddress(s.addresses, r.owner);
      if i == |addresses| then s
      else
        var ipv4, expires := r.data.address, Expiry(now, r.ttl);
        s.(addresses := addresses[i := addresses[i].(ipv4 := ipv4, expires := expires)],
           discovered := MapEntries(s.discovered, e => AddressAnnounced(e, r.owner, ipv4, expires)))
  }

  // ---------- Expiry ----------

  function ExpiredAddress(a: Address, now: u64): Address {
    if a.inUse && a.expires != 0 && a.expires <= now then EMPTY_ADDRESS else a
  }

  predicate Due(has: bool, expires: u64, now: u64) {
    has && expires != 0 && expires <= now
  }

  function One(b: bool): nat {
    if b then 1 else 0
  }

  /** One entry of expire_discovered: each record on its own clock; losing PTR, or all of PTR, SRV and TXT, marks it. */
  function ExpiredEntry(e: Entry, now: u64): Entry
  {
    if !e.inUse then e
    else
      var ptr, srv := Due(e.hasPtr, e.ptrExpires, now), Due(e.hasSrv, e.srvExpires, now);
      var txt, a := Due(e.hasTxt, e.txtExpires, now), Due(e.hasIpv4, e.aExpires, now);
      var empty := (ptr || !e.hasPtr) && (srv || !e.hasSrv) && (txt || !e.hasTxt);
      e.(hasPtr := e.hasPtr && !ptr, ptrExpires := if ptr then 0 else e.ptrExpires,
         hasSrv := e.hasSrv && !srv, srvExpires := if srv then 0 else e.srvExpires,
         nextSrvQuery := if srv then 0 else e.nextSrvQuery,
         hasTxt := e.hasTxt && !txt, txtExpires := if txt then 0 else e.txtExpires,
         nextTxtQuery := if txt then 0 else e.nextTxtQuery,
         hasIpv4 := e.hasIpv4 && !a, aExpires := if a then 0 else e.aExpires,
         nextAQuery := if a then 0 else e.nextAQuery,
         remove := e.remove || ptr || empty,
         changes := e.changes + One(ptr) + One(srv) + One(txt) + One(a) + One(empty))
  }

  function ExpiredSearch(s: Search, now: u64): Search
  {
    s.(addresses := seq(|s.addresses|, i requires 0 <= i < |s.addresses| => ExpiredAddress(s.addresses[i], now)),
       discovered := MapEntries(s.discovered, e => ExpiredEntry(e, now)))
  }

  // ---------- Follow-up queries ----------

  /** send_followup_queries: which queries go out next, and when they may go out again. */
  function FollowedUp(e: Entry, now: u64): Entry
  {
    if !e.inUse || e.remove || !e.hasPtr then e
    else
      var next := now + FOLLOWUP_INTERVAL;
      e.(nextSrvQuery := if !e.hasSrv && now >= e.nextSrvQuery then next else e.nextSrvQuery,
         nextTxtQuery := if !e.hasTxt && now >= e.nextTxtQuery then next else e.nextTxtQuery,
         nextAQuery := if e.hasSrv && !e.hasIpv4 && now >= e.nextAQuery then next else e.nextAQuery)
  }

  // ---------- The cache invariant ----------

  ghost predicate DistinctHosts(a: seq<Address>) {
    forall i, j | 0 <= i < j < |a| && a[i].inUse && a[j].inUse :: !NameMatches(a[i].host, a[j].host)
  }

  ghost predicate DistinctNames(d: seq<Entry>) {
    forall i, j | 0 <= i < j < |d| && d[i].inUse && d[j].inUse :: !NameMatches(d[i].fqdn, d[j].fqdn)
  }

  /** At most one cached address per host and one entry per instance. */
  ghost predicate Distinct(s: Search) {
    && DistinctHosts(s.addresses)
    && DistinctNames(s.discovered)
  }

  /** Every flag that is set has an expiry, and an address is only held for a named host. */
  predicate EntrySane(e: Entry) {
    && (e.inUse <==> e.token.Some?)
    && (e.inUse ==>
          && (e.hasPtr ==> e.ptrExpires > 0) && (e.hasSrv ==> e.srvExpires > 0)
          && (e.hasTxt ==> e.txtExpires > 0) && (e.hasIpv4 ==> e.aExpires > 0)
          && (e.host == [] ==> !e.hasIpv4))
  }

  predicate AddressSane(a: Address) {
    a.inUse ==> a.host != [] && a.expires > 0
  }

  /** A cached address that has not expired is the address of every entry it is for. */
  predicate Agrees(e: Entry, a: Address, now: u64) {
    HostedBy(e, a.host) && a.inUse && a.expires > now ==> e.hasIpv4 && e.ipv4 == a.ipv4 && e.aExpires == a.expires
  }

  ghost predicate AddressAgreement(s: Search, now: u64) {
    forall i, j :: 0 <= i < |s.discovered| && 0 <= j < |s.addresses| ==> Agrees(s.discovered[i], s.addresses[j], now)
  }

  ghost predicate CacheOk(s: Search, now: u64) {
    && s.Shaped() && Distinct(s)
    && (forall i :: 0 <= i < |s.discovered| ==> EntrySane(s.discovered[i]))
    && (forall i :: 0 <= i < |s.addresses| ==> AddressSane(s.addresses[i]))
    && AddressAgreement(s, now)
  }

  // ---------- Every step keeps the invariant ----------

  /** Replacing one entry by one with the same identity keeps the invariant if the new one is sane and agrees. */
  lemma EntryReplaced(s: Search, i: nat, e: Entry, now: u64)
    requires CacheOk(s, now) && i < |s.discovered| && EntrySane(e)
    requires e.inUse ==> s.discovered[i].inUse && e.fqdn == s.discovered[i].fqdn
    requires forall j :: 0 <= j < |s.addresses| ==> Agrees(e, s.addresses[j], now)
    ensures CacheOk(WithEntry(s, i, e), now)
  {
  }

  lemma NewEntryKeeps(s: Search, i: nat, e: Entry, now: u64)
    requires CacheOk(s, now) && i < |s.discovered| && EntrySane(e) && !e.hasSrv
    requires e.inUse ==> forall j :: 0 <= j < |s.discovered| ==> !EntryNamed(s.discovered[j], e.fqdn)
    ensures CacheOk(WithEntry(s, i, e), now)
  {
    var d, d' := s.discovered, WithEntry(s, i, e).discovered;
    forall x, y | 0 <= x < y < |d'| && d'[x].inUse && d'[y].inUse
      ensures !NameMatches(d'[x].fqdn, d'[y].fqdn)
    {
      if x == i || y == i {
        assert x != i ==> !EntryNamed(d[x], e.fqdn);
        assert y != i ==> !EntryNamed(d[y], e.fqdn);
      }
    }
  }

  lemma AllocationKeeps(c: Cache, fqdn: seq<byte>, now: u64)
    requires CacheOk(c.search, now)
    ensures CacheOk(AllocateEntry(c, fqdn).0.search, now)
  {
    var d := c.search.discovered;
    var existing, free := FindEntry(d, fqdn), FreeEntry(d);
    if existing == |d| && free < |d| {
      NewEntryKeeps(c.search, free, AllocateEntry(c, fqdn).0.search.discovered[free], now);
    }
  }

  lemma PtrKeeps(c: Cache, r: Record, now: u64)
    requires CacheOk(c.search, now)
    ensures CacheOk(StepPtr(c, r, now).search, now)
  {
    if r.data.Ptr? && InClass(r) && NameMatches(r.owner, c.search.serviceFqdn) {
      if r.ttl == 0 {
        var i := FindEntry(c.search.discovered, r.data.target);
        if i < |c.search.discovered| {
          EntryReplaced(c.search, i, StepPtr(c, r, now).search.discovered[i], now);
        }
      } else {
        AllocationKeeps(c, r.data.target, now);
        ExpiryBounds(now, r.ttl);
        var (c', i) := AllocateEntry(c, r.data.target);
        if i < |c'.search.discovered| {
          EntryReplaced(c'.search, i, StepPtr(c, r, now).search.discovered[i], now);
        }
      }
    }
  }

  /** A host that keeps its address has a name. */
  lemma SrvSane(e: Entry, port: u16, target: seq<byte>, expires: u64, cached: Option<Address>)
    requires EntrySane(e) && e.inUse && expires > 0
    requires cached.Some? ==> cached.value.expires > 0 && target != []
    ensures EntrySane(CachedAddressApplied(SrvAnnounced(e, port, target, expires), cached))
  {
    if target == [] && e.host != [] && NameMatches(e.host, target) { MatchesEmpty(e.host, target); }
  }

  /** After an SRV record the entry agrees with the cache: a changed host drops the old address, a cached one is
      taken. */
  lemma SrvAgrees(s: Search, e: Entry, port: u16, target: seq<byte>, now: u64, ttl: u32, j: nat)
    requires DistinctHosts(s.addresses) && j < |s.addresses|
    ensures Agrees(SrvApplied(s, e, port, target, now, ttl), s.addresses[j], now)
  {
    hide EffectivePort, Expiry, NameMatches, FindAddress;
    TheAddressFound(s.addresses, target, j);
  }

  /** The only cached address of a host is the one that is found. */
  lemma TheAddressFound(a: seq<Address>, host: seq<byte>, j: nat)
    requires DistinctHosts(a) && j < |a|
    ensures AddressNamed(a[j], host) ==> FindAddress(a, host) == j
    ensures FindAddress(a, host) < |a| ==> AddressNamed(a[FindAddress(a, host)], host)
    ensures NameMatches(a[j].host, host) <==> NameMatches(host, a[j].host)
  {
    var k := FindAddress(a, host);
    if AddressNamed(a[j], host) {
      assert k <= j && NameMatches(a[k].host, a[j].host);
    }
  }

  lemma SrvKeeps(s: Search, i: nat, port: u16, target: seq<byte>, now: u64, ttl: u32)
    requires CacheOk(s, now) && i < |s.discovered| && s.discovered[i].inUse && ttl > 0
    ensures CacheOk(WithEntry(s, i, SrvApplied(s, s.discovered[i], port, target, now, ttl)), now)
  {
    hide Agrees, SrvAnnounced, CachedAddressApplied, EffectivePort, Expiry, NameMatches;
    var e, cached := s.discovered[i], CachedAddress(s.addresses, target, now);
    var k := FindAddress(s.addresses, target);
    if k < |s.addresses| { MatchesEmpty(s.addresses[k].host, target); }
    ExpiryBounds(now, ttl);
    SrvSane(e, EffectivePort(s, port), target, Expiry(now, ttl), cached);
    forall j | 0 <= j < |s.addresses|
      ensures Agrees(SrvApplied(s, e, port, target, now, ttl), s.addresses[j], now)
    {
      SrvAgrees(s, e, port, target, now, ttl, j);
    }
    SrvKeepsIdentity(e, EffectivePort(s, port), target, Expiry(now, ttl), cached);
    EntryReplaced(s, i, SrvApplied(s, e, port, target, now, ttl), now);
  }

  lemma SrvKeepsIdentity(e: Entry, port: u16, target: seq<byte>, expires: u64, cached: Option<Address>)
    ensures var f := CachedAddressApplied(SrvAnnounced(e, port, target, expires), cached);
            f.inUse == e.inUse && f.fqdn == e.fqdn && f.token == e.token && f.notified == e.notified
  {
  }

  lemma WithdrawnOrTxtAgrees(s: Search, i: nat, srv: bool, txt: seq<seq<byte>>, expires: u64, now: u64)
    requires CacheOk(s, now) && i < |s.discovered| && s.discovered[i].inUse && expires > 0
    ensures CacheOk(WithEntry(s, i, ServiceWithdrawn(s.discovered[i], srv)), now)
    ensures CacheOk(WithEntry(s, i, TxtAnnounced(s.discovered[i], txt, expires)), now)
  {
    hide CacheOk, EntrySane, WithEntry, ServiceWithdrawn, TxtAnnounced;
    OneSane(s, i, now);
    WithdrawnAlike(s.discovered[i], srv);
    TxtAlike(s.discovered[i], txt, expires);
    AlikeKeeps(s, i, ServiceWithdrawn(s.discovered[i], srv), now);
    AlikeKeeps(s, i, TxtAnnounced(s.discovered[i], txt, expires), now);
  }

  lemma WithdrawnAlike(e: Entry, srv: bool)
    requires EntrySane(e) && e.inUse
    ensures var f := ServiceWithdrawn(e, srv);
            && EntrySane(f) && f.inUse && f.fqdn == e.fqdn && f.host == e.host && (f.hasSrv ==> e.hasSrv)
            && f.hasIpv4 == e.hasIpv4 && f.ipv4 == e.ipv4 && f.aExpires == e.aExpires
  {
  }

  lemma TxtAlike(e: Entry, txt: seq<seq<byte>>, expires: u64)
    requires EntrySane(e) && e.inUse && expires > 0
    ensures var f := TxtAnnounced(e, txt, expires);
            && EntrySane(f) && f.inUse && f.fqdn == e.fqdn && f.host == e.host && (f.hasSrv ==> e.hasSrv)
            && f.hasIpv4 == e.hasIpv4 && f.ipv4 == e.ipv4 && f.aExpires == e.aExpires
  {
  }

  lemma OneSane(s: Search, i: nat, now: u64)
    requires CacheOk(s, now) && i < |s.discovered|
    ensures EntrySane(s.discovered[i])
  {
  }

  /** An entry that keeps its host and address, and gains no SRV record, agrees as before. */
  lemma AlikeKeeps(s: Search, i: nat, e: Entry, now: u64)
    requires CacheOk(s, now) && i < |s.discovered| && s.discovered[i].inUse && EntrySane(e)
    requires e.inUse && e.fqdn == s.discovered[i].fqdn && e.host == s.discovered[i].host
    requires e.hasSrv ==> s.discovered[i].hasSrv
    requires e.hasIpv4 == s.discovered[i].hasIpv4 && e.ipv4 == s.discovered[i].ipv4
    requires e.aExpires == s.discovered[i].aExpires
    ensures CacheOk(WithEntry(s, i, e), now)
  {
    hide NameMatches;
    forall j | 0 <= j < |s.addresses|
      ensures Agrees(e, s.addresses[j], now)
    {
      assert Agrees(s.discovered[i], s.addresses[j], now);
    }
    EntryReplaced(s, i, e, now);
  }

  lemma ServiceKeeps(c: Cache, r: Record, now: u64)
    requires CacheOk(c.search, now)
    ensures CacheOk(StepService(c, r, now).search, now)
  {
    hide CacheOk, SrvApplied, ServiceWithdrawn, TxtAnnounced, AcceptedTxt, InstanceName, NameMatches, AllocateEntry,
         Expiry;
    if InClass(r) && (r.data.Srv? || r.data.Txt?) {
      AllocationKeeps(c, r.owner, now);
      var (c', i) := ServiceEntry(c, r);
      if i < |c'.search.discovered| {
        if r.ttl == 0 {
          WithdrawnOrTxtAgrees(c'.search, i, r.data.Srv?, [], 1, now);
        } else {
          ExpiryBounds(now, r.ttl);
          if r.data.Srv? {
            SrvKeeps(c'.search, i, r.data.port, r.data.target, now, r.ttl);
          } else if AcceptedTxt(r).Some? {
            WithdrawnOrTxtAgrees(c'.search, i, false, AcceptedTxt(r).value, Expiry(now, r.ttl), now);
          }
        }
      }
    }
  }

  lemma AddressWithdrawalKeeps(s: Search, r: Record, now: u64)
    requires CacheOk(s, now) && r.data.A? && InClass(r) && r.ttl == 0
    ensures CacheOk(StepAddress(s, r, now), now)
  {
    var t, k := StepAddress(s, r, now), FindAddress(s.addresses, r.owner);
    forall i, j | 0 <= i < |t.discovered| && 0 <= j < |t.addresses|
      ensures Agrees(t.discovered[i], t.addresses[j], now)
    {
      assert Agrees(s.discovered[i], s.addresses[j], now);
      if t.addresses[j].inUse && HostedBy(s.discovered[i], r.owner) && HostedBy(s.discovered[i], t.addresses[j].host) {
        assert AddressNamed(s.addresses[j], r.owner);
        assert k < |s.addresses| && NameMatches(s.addresses[k].host, s.addresses[j].host);
        assert false;
      }
    }
  }

  lemma AllocatedAddress(a: seq<Address>, host: seq<byte>)
    requires DistinctHosts(a)
    ensures var (b, k) := AllocateAddress(a, host);
            && DistinctHosts(b)
            && (k < |b| ==> AddressNamed(b[k], host) && |b[k].host| == |host|)
            && (forall i :: 0 <= i < |b| && i != k ==> b[i] == a[i])
  {
    var (b, k) := AllocateAddress(a, host);
    if k < |b| {
      MatchesEmpty(b[k].host, host);
      forall i, j | 0 <= i < j < |b| && b[i].inUse && b[j].inUse
        ensures !NameMatches(b[i].host, b[j].host)
      {
        if b != a && (i == k || j == k) {
          assert i != k ==> !AddressNamed(a[i], host);
          assert j != k ==> !AddressNamed(a[j], host);
        }
      }
    }
  }

  lemma AddressAnnouncementKeeps(s: Search, r: Record, now: u64)
    requires CacheOk(s, now) && r.data.A? && InClass(r) && r.ttl > 0
    ensures CacheOk(StepAddress(s, r, now), now)
  {
    var t := StepAddress(s, r, now);
    var (b, k) := AllocateAddress(s.addresses, r.owner);
    AllocatedAddress(s.addresses, r.owner);
    ExpiryBounds(now, r.ttl);
    if k < |b| {
      if s.addresses[k].inUse { assert AddressSane(s.addresses[k]); }
      forall i | 0 <= i < |t.discovered|
        ensures EntrySane(t.discovered[i])
      {
        assert EntrySane(s.discovered[i]);
        if HostedBy(s.discovered[i], r.owner) { MatchesEmpty(s.discovered[i].host, r.owner); }
      }
      forall i, j | 0 <= i < |t.discovered| && 0 <= j < |t.addresses|
        ensures Agrees(t.discovered[i], t.addresses[j], now)
      {
        assert j != k ==> Agrees(s.discovered[i], s.addresses[j], now);
        assert j != k && b[j].inUse ==> !NameMatches(b[j].host, b[k].host);
      }
    }
  }

  lemma AddressKeeps(s: Search, r: Record, now: u64)
    requires CacheOk(s, now)
    ensures CacheOk(StepAddress(s, r, now), now)
  {
    if r.data.A? && InClass(r) {
      if r.ttl == 0 { AddressWithdrawalKeeps(s, r, now); } else { AddressAnnouncementKeeps(s, r, now); }
    }
  }

  /** Time only shrinks what the agreement speaks about. */
  lemma LaterKeeps(s: Search, now: u64, later: u64)
    requires CacheOk(s, now) && now <= later
    ensures CacheOk(s, later)
  {
    forall i, j | 0 <= i < |s.discovered| && 0 <= j < |s.addresses|
      ensures Agrees(s.discovered[i], s.addresses[j], later)
    {
      assert Agrees(s.discovered[i], s.addresses[j], now);
    }
  }

  lemma EntryExpiryKeeps(e: Entry, a: Address, at: u64, now: u64)
    requires EntrySane(e) && AddressSane(a) && Agrees(e, a, now) && at <= now
    ensures EntrySane(ExpiredEntry(e, at)) && AddressSane(ExpiredAddress(a, at))
    ensures Agrees(ExpiredEntry(e, at), ExpiredAddress(a, at), now)
  {
  }

  lemma EntryExpirySane(e: Entry, at: u64)
    requires EntrySane(e)
    ensures EntrySane(ExpiredEntry(e, at)) && ExpiredEntry(e, at).fqdn == e.fqdn && ExpiredEntry(e, at).inUse == e.inUse
  {
  }

  /** Expiring at a time not after the cache's clock keeps the agreement: entry and cached address expire together. */
  lemma ExpiryKeeps(s: Search, at: u64, now: u64)
    requires CacheOk(s, now) && at <= now
    ensures CacheOk(ExpiredSearch(s, at), now)
  {
    hide ExpiredEntry, EntrySane, Agrees, AddressSane;
    var t := ExpiredSearch(s, at);
    forall i | 0 <= i < |t.discovered|
      ensures EntrySane(t.discovered[i]) && t.discovered[i].fqdn == s.discovered[i].fqdn
      ensures t.discovered[i].inUse == s.discovered[i].inUse
    {
      EntryExpirySane(s.discovered[i], at);
    }
    forall i, j | 0 <= i < |t.discovered| && 0 <= j < |t.addresses|
      ensures Agrees(t.discovered[i], t.addresses[j], now) && AddressSane(t.addresses[j])
    {
      EntryExpiryKeeps(s.discovered[i], s.addresses[j], at, now);
    }
    assert |t.discovered| > 0;
    forall j | 0 <= j < |t.addresses|
      ensures AddressSane(t.addresses[j])
    {
      EntryExpiryKeeps(s.discovered[0], s.addresses[j], at, now);
    }
  }

  lemma EntryFollowUpKeeps(e: Entry, a: Address, at: u64, now: u64)
    ensures EntrySane(e) ==> EntrySane(FollowedUp(e, at))
    ensures Agrees(e, a, now) ==> Agrees(FollowedUp(e, at), a, now)
    ensures FollowedUp(e, at).fqdn == e.fqdn && FollowedUp(e, at).inUse == e.inUse
  {
  }

  lemma FollowUpKeeps(s: Search, at: u64, now: u64)
    requires CacheOk(s, now)
    ensures CacheOk(s.(discovered := MapEntries(s.discovered, e => FollowedUp(e, at))), now)
  {
    hide FollowedUp, EntrySane, Agrees;
    forall i, j | 0 <= i < |s.discovered| && 0 <= j < |s.addresses|
      ensures EntrySane(FollowedUp(s.discovered[i], at)) && Agrees(FollowedUp(s.discovered[i], at), s.addresses[j], now)
    {
      EntryFollowUpKeeps(s.discovered[i], s.addresses[j], at, now);
    }
    forall i | 0 <= i < |s.discovered|
      ensures EntrySane(FollowedUp(s.discovered[i], at)) && FollowedUp(s.discovered[i], at).fqdn == s.discovered[i].fqdn
      ensures FollowedUp(s.discovered[i], at).inUse == s.discovered[i].inUse
    {
      EntryFollowUpKeeps(s.discovered[i], s.addresses[0], at, now);
    }
  }

  // ---------- Expiry completeness ----------

  /** A flag that survives an expiry at `at` has a later expiry time; an entry with no record left is marked. */
  lemma ExpiryComplete(e: Entry, at: u64)
    requires EntrySane(e) && e.inUse
    ensures var f := ExpiredEntry(e, at);
            && (f.hasPtr ==> at < f.ptrExpires) && (f.hasSrv ==> at < f.srvExpires)
            && (f.hasTxt ==> at < f.txtExpires) && (f.hasIpv4 ==> at < f.aExpires)
            && (!f.hasPtr && !f.hasSrv && !f.hasTxt ==> f.remove)
            && (e.hasPtr && !f.hasPtr ==> f.remove)
    ensures var f := ExpiredEntry(e, at);
            && (e.hasPtr && at < e.ptrExpires ==> f.hasPtr) && (e.hasSrv && at < e.srvExpires ==> f.hasSrv)
            && (e.hasTxt && at < e.txtExpires ==> f.hasTxt) && (e.hasIpv4 && at < e.aExpires ==> f.hasIpv4)
  {
  }

  // ---------- What a withdrawal reaches ----------

  /** An A withdrawal reaches exactly the entries that hold an SRV for the host at that moment. */
  lemma WithdrawalReaches(s: Search, r: Record, now: u64, i: nat)
    requires r.data.A? && InClass(r) && r.ttl == 0 && i < |s.discovered|
    requires s.discovered[i].inUse && NameMatches(s.discovered[i].host, r.owner)
    ensures StepAddress(s, r, now).discovered[i].hasIpv4 <==> s.discovered[i].hasIpv4 && !s.discovered[i].hasSrv
  {
  }
}
