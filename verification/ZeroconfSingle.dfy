/** What a guest is told of an instance when a packet brings a single record about it. */
module ZeroconfSingle {
  import opened Options
  import opened WireNames
  import opened WireParse
  import opened ZeroconfCache
  import opened ZeroconfEntry
  import opened ZeroconfGuest
  import opened ZeroconfSteps
  import opened ZeroconfScene
  import opened ZeroconfReports

  /** An instance the guest knows, as it is. */
  predicate UpToDate(e: Entry) {
    && e.inUse && e.token.Some? && e.notified && e.Complete()
    && !e.remove && !e.endpointChanged && !e.txtChanged
  }

  /** What a dispatch after this packet tells of the i-th entry. */
  function Told(c: Cache, i: nat, r: Record, now: u64, next: nat): seq<Event>
    requires i < |PacketApplied(c, [r], now).discovered|
  {
    var s := PacketApplied(c, [r], now);
    Tells(s, s.discovered[i], next)
  }

  // ---------- One record ----------

  lemma OneRecord(c: Cache, r: Record, now: u64)
    ensures PacketApplied(c, [r], now)
         == FollowedUpSearch(StepAddress(StepService(StepPtr(c, r, now), r, now).search, r, now), now)
  {
    hide StepPtr, StepService, StepAddress, FollowedUpSearch;
    var p := StepPtr(c, r, now);
    var v := StepService(p, r, now);
    assert [r][1..] == [];
    assert FoldPtr(c, [r], now) == FoldPtr(p, [], now) == p;
    assert FoldService(p, [r], now) == FoldService(v, [], now) == v;
    assert FoldAddress(v.search, [r], now) == FoldAddress(StepAddress(v.search, r, now), [], now);
  }

  /** The record of the kind that a step is not for. */
  lemma OtherKind(c: Cache, r: Record, now: u64)
    ensures !r.data.Ptr? ==> StepPtr(c, r, now) == c
    ensures !r.data.Srv? && !r.data.Txt? ==> StepService(c, r, now) == c
    ensures !r.data.A? ==> StepAddress(c.search, r, now) == c.search
  {
    hide NameMatches, AllocateEntry, ServiceEntry, AllocateAddress, FindAddress, Expiry;
  }

  lemma FollowedAt(s: Search, i: nat, now: u64)
    requires i < |s.discovered|
    ensures var t := FollowedUpSearch(s, now);
            |t.discovered| == |s.discovered| && t.discovered[i] == FollowedUp(s.discovered[i], now)
  {
    hide FollowedUp;
  }

  /** The entry after one record about it. */
  function After(s: Search, e: Entry, r: Record, now: u64): Entry {
    if r.data.Ptr? then PtrOn(e, r, now)
    else if r.data.A? then AddressOn(e, r, HasRoom(s.addresses, r.owner), now)
    else ServiceOn(s, e, r, now)
  }

  /** It is about this entry. */
  predicate Concerns(s: Search, e: Entry, r: Record) {
    && r.class_ == 1
    && match r.data
       case Ptr(target) => NameMatches(r.owner, s.serviceFqdn) && NameMatches(e.fqdn, target)
       case Srv(_, _, _, _) => NameMatches(e.fqdn, r.owner)
       case Txt(_, _) => NameMatches(e.fqdn, r.owner)
       case A(_) => NameMatches(e.host, r.owner)
       case NoData => false
  }

  lemma EntryAfter(c: Cache, i: nat, r: Record, now: u64)
    requires CacheOk(c.search, now) && i < |c.search.discovered| && c.search.discovered[i].inUse
    requires Concerns(c.search, c.search.discovered[i], r)
    ensures var t := PacketApplied(c, [r], now);
            && |t.discovered| == |c.search.discovered| && SameTerms(c.search, t)
            && t.discovered[i] == FollowedUp(After(c.search, c.search.discovered[i], r, now), now)
  {
    hide StepPtr, StepService, StepAddress, FollowedUpSearch, FollowedUp, CacheOk, NameMatches, PtrOn, ServiceOn,
         AddressOn, HasRoom, PacketApplied;
    OneRecord(c, r, now);
    OtherKind(c, r, now);
    PacketKeepsTerms(c, [r], now);
    DistinctlyNamed(c.search, now);
    if r.data.Ptr? {
      PtrStepOn(c, i, r, now);
    } else if r.data.A? {
      AddressStepOn(c.search, i, r, now);
    } else {
      ServiceStepOn(c, i, r, now);
    }
    var p := StepPtr(c, r, now);
    var v := StepService(p, r, now);
    OtherKind(p, r, now);
    OtherKind(v, r, now);
    FollowedAt(StepAddress(v.search, r, now), i, now);
  }

  lemma DistinctlyNamed(s: Search, now: u64)
    requires CacheOk(s, now)
    ensures DistinctNames(s.discovered)
  {
  }

  /** Asking for what is missing does not change what is told. */
  lemma AskingTellsNothing(s: Search, t: Search, e: Entry, now: u64, next: nat)
    requires SameTerms(s, t)
    ensures Tells(t, FollowedUp(e, now), next) == Tells(s, e, next)
  {
    if e.Complete() { CompleteAsks(e, now); } else { SameMarks(e, now); }
  }

  lemma CompleteAsks(e: Entry, now: u64)
    requires e.Complete()
    ensures FollowedUp(e, now) == e
  {
  }

  lemma SameMarks(e: Entry, now: u64)
    ensures var f := FollowedUp(e, now);
            && f.inUse == e.inUse && f.remove == e.remove && f.notified == e.notified && f.token == e.token
            && f.hasPtr == e.hasPtr && f.hasSrv == e.hasSrv && f.hasTxt == e.hasTxt && f.hasIpv4 == e.hasIpv4
  {
  }

  lemma ToldIs(c: Cache, i: nat, r: Record, now: u64, next: nat)
    requires CacheOk(c.search, now) && i < |c.search.discovered| && c.search.discovered[i].inUse
    requires Concerns(c.search, c.search.discovered[i], r)
    ensures |PacketApplied(c, [r], now).discovered| == |c.search.discovered|
    ensures Told(c, i, r, now, next) == Tells(c.search, After(c.search, c.search.discovered[i], r, now), next)
  {
    hide PacketApplied, After, Tells, FollowedUp, CacheOk, Concerns;
    EntryAfter(c, i, r, now);
    var t, e := PacketApplied(c, [r], now), c.search.discovered[i];
    AskingTellsNothing(c.search, t, After(c.search, e, r, now), now, next);
  }

  // ---------- What is told ----------

  /** New TXT strings are told as one update of the same token; strings the guest has are not told again. */
  lemma TxtTold(c: Cache, i: nat, r: Record, strings: seq<seq<byte>>, now: u64, next: nat)
    requires CacheOk(c.search, now) && i < |c.search.discovered| && UpToDate(c.search.discovered[i])
    requires Concerns(c.search, c.search.discovered[i], r) && r.data.Txt? && r.ttl > 0
    requires AcceptedTxt(r) == Some(strings)
    ensures |PacketApplied(c, [r], now).discovered| == |c.search.discovered|
    ensures var s, e := c.search, c.search.discovered[i];
            Told(c, i, r, now, next)
            == if strings == e.txt then [] else [Updated(s.generation, e.token.value, strings, s.update)]
  {
    hide CacheOk, Concerns, AcceptedTxt, Expiry, Told, PacketApplied;
    ToldIs(c, i, r, now, next);
  }

  /** Strings it cannot take are passed over. */
  lemma BadTxtTold(c: Cache, i: nat, r: Record, now: u64, next: nat)
    requires CacheOk(c.search, now) && i < |c.search.discovered| && UpToDate(c.search.discovered[i])
    requires Concerns(c.search, c.search.discovered[i], r) && r.data.Txt? && r.ttl > 0 && AcceptedTxt(r).None?
    ensures |PacketApplied(c, [r], now).discovered| == |c.search.discovered| && Told(c, i, r, now, next) == []
  {
    hide CacheOk, Concerns, AcceptedTxt, Expiry, Told, PacketApplied;
    ToldIs(c, i, r, now, next);
  }

  /** Whichever of its four records is withdrawn, the instance is told lost, once and under the token the guest has. */
  lemma LossTold(c: Cache, i: nat, r: Record, now: u64, next: nat)
    requires CacheOk(c.search, now) && i < |c.search.discovered| && UpToDate(c.search.discovered[i])
    requires Concerns(c.search, c.search.discovered[i], r) && r.ttl == 0
    ensures |PacketApplied(c, [r], now).discovered| == |c.search.discovered|
    ensures Told(c, i, r, now, next)
         == [Lost(c.search.generation, c.search.discovered[i].token.value, c.search.lost)]
  {
    hide CacheOk, NameMatches, AcceptedTxt, Expiry, Told, PacketApplied;
    ToldIs(c, i, r, now, next);
  }

  /** Moved to another port, host or address: the old token is lost, and the instance found again under a new one, with
      the data it has now. */
  predicate MovedTo(s: Search, e: Entry, told: seq<Event>, next: nat, port: u16, host: seq<byte>, ipv4: Ipv4) {
    && |told| == 2 && e.token.Some? && told[0] == Lost(s.generation, e.token.value, s.lost)
    && told[1].Found? && told[1].generation == s.generation && told[1].token == next && told[1].delivered == s.found
    && ReportOf(told[1].entry) == Report(port, host, ipv4, e.txt)
  }

  /** A changed address of its host moves an instance; the same address is not told again. */
  lemma AddressTold(c: Cache, i: nat, r: Record, now: u64, next: nat)
    requires CacheOk(c.search, now) && i < |c.search.discovered| && UpToDate(c.search.discovered[i])
    requires Concerns(c.search, c.search.discovered[i], r) && r.data.A? && r.ttl > 0
    requires HasRoom(c.search.addresses, r.owner)
    ensures |PacketApplied(c, [r], now).discovered| == |c.search.discovered|
    ensures var s, e := c.search, c.search.discovered[i];
            var told := Told(c, i, r, now, next);
            if r.data.address == e.ipv4 then told == []
            else MovedTo(s, e, told, next, e.port, e.host, r.data.address)
  {
    hide CacheOk, NameMatches, Expiry, Told, PacketApplied, HasRoom;
    ToldIs(c, i, r, now, next);
  }

  /** A changed port or host moves it too, if the address of the host is known; otherwise it is lost. */
  lemma SrvTold(c: Cache, i: nat, r: Record, now: u64, next: nat)
    requires CacheOk(c.search, now) && i < |c.search.discovered| && UpToDate(c.search.discovered[i])
    requires Concerns(c.search, c.search.discovered[i], r) && r.data.Srv? && r.ttl > 0
    ensures |PacketApplied(c, [r], now).discovered| == |c.search.discovered|
    ensures var s, e, target := c.search, c.search.discovered[i], r.data.target;
            var told, port := Told(c, i, r, now, next), EffectivePort(s, r.data.port);
            match CachedAddress(s.addresses, target, now)
            case None =>
              if e.host != [] && !NameMatches(e.host, target) then told == [Lost(s.generation, e.token.value, s.lost)]
              else if port == e.port then told == []
              else MovedTo(s, e, told, next, port, target, e.ipv4)
            case Some(a) =>
              if port == e.port && (e.host == [] || NameMatches(e.host, target))
                 && (a.ipv4 == e.ipv4) then told == []
              else MovedTo(s, e, told, next, port, target, a.ipv4)
  {
    hide CacheOk, NameMatches, Expiry, Told, PacketApplied, CachedAddress, EffectivePort, Concerns;
    ToldIs(c, i, r, now, next);
  }

  /** An instance of which only the TXT strings were missing is found when they come. */
  lemma CompletionTold(c: Cache, i: nat, r: Record, strings: seq<seq<byte>>, now: u64, next: nat)
    requires CacheOk(c.search, now) && i < |c.search.discovered|
    requires var e := c.search.discovered[i];
             e.inUse && e.token.Some? && !e.notified && !e.remove && e.hasPtr && e.hasSrv && e.hasIpv4
    requires Concerns(c.search, c.search.discovered[i], r) && r.data.Txt? && r.ttl > 0
    requires AcceptedTxt(r) == Some(strings)
    ensures |PacketApplied(c, [r], now).discovered| == |c.search.discovered|
    ensures var s, e := c.search, c.search.discovered[i];
            var told := Told(c, i, r, now, next);
            && |told| == 1 && told[0].Found? && told[0].generation == s.generation && told[0].token == e.token.value
            && told[0].delivered == s.found && ReportOf(told[0].entry) == Report(e.port, e.host, e.ipv4, strings)
  {
    hide CacheOk, Concerns, AcceptedTxt, Expiry, Told, PacketApplied;
    ToldIs(c, i, r, now, next);
  }

  // ---------- Counting changes ----------

  predicate Counted(e: Entry, f: Entry) {
    f == e || f.changes > e.changes
  }

  /** Whatever a record or an expiry changes in an entry is counted, so that a dispatch can tell that it happened. */
  lemma ChangesCounted(s: Search, e: Entry, r: Record, now: u64)
    ensures Counted(e, After(s, e, r, now)) && Counted(e, ExpiredEntry(e, now))
  {
    hide Counted, AcceptedTxt, Expiry, EffectivePort, CachedAddress, ExpiredEntry, ServiceWithdrawn, SrvApplied,
         TxtAnnounced, AddressWithdrawn, AddressAnnounced, PtrOn, HasRoom;
    ExpiryCounted(e, now);
    PtrCounted(e, r, now);
    WithdrawalCounted(e, r.owner);
    if r.data.Srv? { SrvCounted(s, e, r, now); }
    if r.data.Txt? && AcceptedTxt(r).Some? { TxtCounted(e, AcceptedTxt(r).value, Expiry(now, r.ttl)); }
    if r.data.A? { AddressCounted(e, r.owner, r.data.address, Expiry(now, r.ttl)); }
  }

  lemma ExpiryCounted(e: Entry, now: u64)
    ensures Counted(e, ExpiredEntry(e, now))
  {
  }

  lemma PtrCounted(e: Entry, r: Record, now: u64)
    ensures Counted(e, PtrOn(e, r, now)) && Counted(e, e)
  {
    hide Expiry;
  }

  lemma WithdrawalCounted(e: Entry, host: seq<byte>)
    ensures Counted(e, ServiceWithdrawn(e, true)) && Counted(e, ServiceWithdrawn(e, false))
    ensures Counted(e, AddressWithdrawn(e, host))
  {
    hide HostedBy;
  }

  lemma SrvCounted(s: Search, e: Entry, r: Record, now: u64)
    requires r.data.Srv?
    ensures Counted(e, SrvApplied(s, e, r.data.port, r.data.target, now, r.ttl))
  {
    hide HostChanged, CachedAddress, EffectivePort, Expiry;
  }

  lemma TxtCounted(e: Entry, txt: seq<seq<byte>>, expires: u64)
    ensures Counted(e, TxtAnnounced(e, txt, expires))
  {
  }

  lemma AddressCounted(e: Entry, host: seq<byte>, ipv4: Ipv4, expires: u64)
    ensures Counted(e, AddressAnnounced(e, host, ipv4, expires))
  {
    hide HostedBy;
  }
}
