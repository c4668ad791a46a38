/** What one record does to one entry of a search. */
module ZeroconfEntry {
  import opened WireNames
  import opened WireParse
  import opened ZeroconfCache

  // ---------- SRV and TXT records ----------

  /** What one SRV or TXT record about an entry does to it. */
  function ServiceOn(s: Search, f: Entry, r: Record, now: u64): Entry {
    if !r.data.Srv? && !r.data.Txt? then f
    else if r.ttl == 0 then ServiceWithdrawn(f, r.data.Srv?)
    else if r.data.Srv? then SrvApplied(s, f, r.data.port, r.data.target, now, r.ttl)
    else match AcceptedTxt(r)
         case None => f
         case Some(txt) => TxtAnnounced(f, txt, Expiry(now, r.ttl))
  }

  /** The search's names and addresses, which the PTR, SRV and TXT records leave alone. */
  predicate SameFrame(s: Search, t: Search) {
    t == s.(discovered := t.discovered) && |t.discovered| == |s.discovered|
  }

  /** An allocation touches no entry in use. */
  lemma AllocationSpares(c: Cache, fqdn: seq<byte>, i: nat)
    requires i < |c.search.discovered| && c.search.discovered[i].inUse
    ensures var (c', j) := AllocateEntry(c, fqdn);
            && SameFrame(c.search, c'.search) && c'.search.discovered[i] == c.search.discovered[i]
            && (j == i ==> EntryNamed(c.search.discovered[i], fqdn))
  {
    hide NameMatches, InstanceName;
  }

  /** The only entry in use of this name is the one that is found, and no other. */
  lemma FoundHere(s: Search, i: nat, name: seq<byte>)
    requires DistinctNames(s.discovered) && i < |s.discovered| && s.discovered[i].inUse
    ensures FindEntry(s.discovered, name) == i <==> NameMatches(s.discovered[i].fqdn, name)
  {
    hide Fold;
    var k := FindEntry(s.discovered, name);
    if NameMatches(s.discovered[i].fqdn, name) {
      assert EntryNamed(s.discovered[i], name);
    }
  }

  lemma ServiceStepOn(c: Cache, i: nat, r: Record, now: u64)
    requires DistinctNames(c.search.discovered) && i < |c.search.discovered| && c.search.discovered[i].inUse
    ensures var t, f := StepService(c, r, now).search, c.search.discovered[i];
            && SameFrame(c.search, t)
            && t.discovered[i] ==
                 if InClass(r) && NameMatches(f.fqdn, r.owner) then ServiceOn(c.search, f, r, now) else f
  {
    hide NameMatches, InstanceName, FindEntry, AllocateEntry, SrvApplied, TxtAnnounced, ServiceWithdrawn, AcceptedTxt,
         Expiry, DistinctNames, WithEntry;
    FoundHere(c.search, i, r.owner);
    AllocationSpares(c, r.owner, i);
    if InClass(r) && (r.data.Srv? || r.data.Txt?) {
      var (c', j) := ServiceEntry(c, r);
      if j < |c'.search.discovered| {
        var e := c'.search.discovered[j];
        StoredService(c.search, c'.search, j, ServiceOn(c'.search, e, r, now));
        if r.data.Srv? && r.ttl > 0 { SameCachedAddress(c.search, c'.search, e, r, now); }
      }
    }
  }

  lemma StoredService(s: Search, t: Search, j: nat, e: Entry)
    requires SameFrame(s, t) && j < |t.discovered|
    ensures SameFrame(s, WithEntry(t, j, e)) && WithEntry(t, j, e).discovered[j] == e
    ensures forall i :: 0 <= i < |t.discovered| && i != j ==> WithEntry(t, j, e).discovered[i] == t.discovered[i]
  {
  }

  lemma SameCachedAddress(s: Search, t: Search, e: Entry, r: Record, now: u64)
    requires SameFrame(s, t) && r.data.Srv?
    ensures SrvApplied(t, e, r.data.port, r.data.target, now, r.ttl)
         == SrvApplied(s, e, r.data.port, r.data.target, now, r.ttl)
  {
    hide NameMatches, SrvAnnounced, CachedAddressApplied, FindAddress;
  }

  // ---------- PTR records ----------

  /** A PTR record of the search that names this instance. */
  predicate PtrNames(s: Search, r: Record, fqdn: seq<byte>) {
    r.data.Ptr? && InClass(r) && NameMatches(r.owner, s.serviceFqdn) && NameMatches(fqdn, r.data.target)
  }

  /** What one PTR record that names an entry does to it. */
  function PtrOn(f: Entry, r: Record, now: u64): Entry {
    if r.ttl == 0 then f.(changes := f.changes + 1, hasPtr := false, ptrExpires := 0, remove := true)
    else f.(changes := f.changes + 1, hasPtr := true, ptrExpires := Expiry(now, r.ttl), remove := false)
  }

  lemma PtrStepOn(c: Cache, i: nat, r: Record, now: u64)
    requires DistinctNames(c.search.discovered) && i < |c.search.discovered| && c.search.discovered[i].inUse
    ensures var t, f := StepPtr(c, r, now).search, c.search.discovered[i];
            && SameFrame(c.search, t)
            && t.discovered[i] == if PtrNames(c.search, r, f.fqdn) then PtrOn(f, r, now) else f
  {
    hide NameMatches, InstanceName, Expiry, FindEntry, AllocateEntry, WithEntry, DistinctNames, PtrOn;
    var s := c.search;
    if r.data.Ptr? && InClass(r) && NameMatches(r.owner, s.serviceFqdn) {
      FoundHere(s, i, r.data.target);
      if r.ttl == 0 {
        var j := FindEntry(s.discovered, r.data.target);
        if j < |s.discovered| { StoredPtr(s, j, r, now); }
      } else {
        AllocationSpares(c, r.data.target, i);
        var (c', j) := AllocateEntry(c, r.data.target);
        Allocated(c, r.data.target);
        if j < |c'.search.discovered| { StoredPtr(c'.search, j, r, now); }
      }
    }
  }

  lemma Allocated(c: Cache, fqdn: seq<byte>)
    ensures var (c', j) := AllocateEntry(c, fqdn);
            FindEntry(c.search.discovered, fqdn) < |c.search.discovered| ==>
              j == FindEntry(c.search.discovered, fqdn)
  {
  }

  lemma StoredPtr(s: Search, j: nat, r: Record, now: u64)
    requires j < |s.discovered|
    ensures var e := s.discovered[j];
            var t := WithEntry(s, j, if r.ttl == 0
                                     then e.(changes := e.changes + 1, hasPtr := false, ptrExpires := 0, remove := true)
                                     else e.(changes := e.changes + 1, hasPtr := true, ptrExpires := Expiry(now, r.ttl),
                                             remove := false));
            && SameFrame(s, t) && t.discovered[j] == PtrOn(e, r, now)
            && forall i :: 0 <= i < |s.discovered| && i != j ==> t.discovered[i] == s.discovered[i]
  {
  }

  // ---------- A records ----------

  /** An announced address finds a place in the table. */
  predicate HasRoom(a: seq<Address>, host: seq<byte>) {
    AllocateAddress(a, host).1 < |a|
  }

  /** The address table after one record: the entries play no part in it. */
  function TableStep(a: seq<Address>, r: Record, now: u64): (b: seq<Address>)
    ensures |b| == |a|
  {
    if !r.data.A? || !InClass(r) then a
    else if r.ttl == 0 then
      var i := FindAddress(a, r.owner);
      if i < |a| then a[i := EMPTY_ADDRESS] else a
    else
      var (b, i) := AllocateAddress(a, r.owner);
      if i == |b| then a else b[i := b[i].(ipv4 := r.data.address, expires := Expiry(now, r.ttl))]
  }

  /** What one A record does to an entry; an announcement that finds no room in the table does nothing. */
  function AddressOn(f: Entry, r: Record, room: bool, now: u64): Entry {
    if !r.data.A? || !InClass(r) then f
    else if r.ttl == 0 then AddressWithdrawn(f, r.owner)
    else if room then AddressAnnounced(f, r.owner, r.data.address, Expiry(now, r.ttl)) else f
  }

  lemma AddressStepOn(s: Search, i: nat, r: Record, now: u64)
    requires i < |s.discovered|
    ensures var t := StepAddress(s, r, now);
            && |t.discovered| == |s.discovered| && t.addresses == TableStep(s.addresses, r, now)
            && t.discovered[i] == AddressOn(s.discovered[i], r, HasRoom(s.addresses, r.owner), now)
  {
    hide NameMatches, AllocateAddress, AddressWithdrawn, AddressAnnounced, Expiry, FindAddress;
  }
}
