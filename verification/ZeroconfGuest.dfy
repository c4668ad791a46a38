/** What the callbacks tell the guest, and when that agrees with the record caches. */
module ZeroconfGuest {
  import opened Options
  import opened WireNames
  import opened WireParse
  import opened ZeroconfCache

  // ---------- Notifications ----------

  /** `generation` names the search; `delivered` is false when the search has no such callback. */
  datatype Event =
    | Found(generation: nat, token: nat, entry: Entry, delivered: bool)
    | Updated(generation: nat, token: nat, txt: seq<seq<byte>>, delivered: bool)
    | Lost(generation: nat, token: nat, delivered: bool)
    | Stopped(generation: nat)
  {
    predicate About(t: nat) {
      !Stopped? && token == t
    }
  }

  datatype Report = Report(port: u16, host: seq<byte>, ipv4: Ipv4, txt: seq<seq<byte>>)

  function ReportOf(e: Entry): Report {
    Report(e.port, e.host, e.ipv4, e.txt)
  }

  /** What the notifications so far say about one service token. */
  datatype GuestState = Unknown | Known(report: Report) | Gone | Confused

  function Heard(g: GuestState, e: Event): GuestState {
    match e
    case Found(_, _, entry, _) => if g.Unknown? then Known(ReportOf(entry)) else Confused
    case Updated(_, _, txt, _) => if g.Known? then Known(g.report.(txt := txt)) else Confused
    case Lost(_, _, _) => if g.Known? then Gone else Confused
    case Stopped(_) => g
  }

  ghost function Guest(log: seq<Event>, token: nat): GuestState
  {
    if log == [] then Unknown
    else
      var before := Guest(log[..|log| - 1], token);
      if log[|log| - 1].About(token) then Heard(before, log[|log| - 1]) else before
  }

  /** The generation of the search that reported a token found. */
  ghost function Finder(log: seq<Event>, token: nat): nat
  {
    if log == [] then 0
    else
      var e := log[|log| - 1];
      if e.Found? && e.token == token then e.generation else Finder(log[..|log| - 1], token)
  }

  lemma GuestHears(log: seq<Event>, e: Event, token: nat)
    ensures Guest(log + [e], token) == if e.About(token) then Heard(Guest(log, token), e) else Guest(log, token)
    ensures Finder(log + [e], token) == if e.Found? && e.token == token then e.generation else Finder(log, token)
  {
    assert (log + [e])[..|log|] == log;
  }

  /** The invocations of callbacks among the notifications. */
  ghost function Delivered(log: seq<Event>): seq<Event>
  {
    if log == [] then []
    else
      var e := log[|log| - 1];
      Delivered(log[..|log| - 1]) + (if !e.Stopped? && e.delivered then [e] else [])
  }

  lemma DeliveredAppend(log: seq<Event>, e: Event)
    ensures Delivered(log + [e]) == Delivered(log) + (if !e.Stopped? && e.delivered then [e] else [])
  {
    assert (log + [e])[..|log|] == log;
  }

  /** Nothing was added to the log but stops. */
  ghost predicate OnlyStops(log: seq<Event>, log': seq<Event>) {
    log <= log' && forall i :: |log| <= i < |log'| ==> log'[i].Stopped?
  }

  lemma {:induction false} StopsDeliverNothing(log: seq<Event>, log': seq<Event>)
    requires OnlyStops(log, log')
    ensures Delivered(log') == Delivered(log)
    decreases |log'|
  {
    if |log'| > |log| {
      var before := log'[..|log'| - 1];
      StopsDeliverNothing(log, before);
      DeliveredAppend(before, log'[|log'| - 1]);
      assert before + [log'[|log'| - 1]] == log';
    } else {
      assert log' == log;
    }
  }

  // ---------- The life of a token ----------

  function EventsOf(log: seq<Event>, token: nat): seq<Event>
  {
    if log == [] then []
    else
      var before := EventsOf(log[..|log| - 1], token);
      if log[|log| - 1].About(token) then before + [log[|log| - 1]] else before
  }

  /** One found, then updates, then at most one lost. */
  predicate Lifecycle(events: seq<Event>) {
    events != [] ==>
      && events[0].Found?
      && (forall i :: 0 < i < |events| - 1 ==> events[i].Updated?)
      && (|events| > 1 ==> events[|events| - 1].Updated? || events[|events| - 1].Lost?)
  }

  /** A guest that was never confused about a token has seen a proper life of it. */
  lemma {:induction false} UnconfusedLifecycle(log: seq<Event>, token: nat)
    requires !Guest(log, token).Confused?
    ensures var events := EventsOf(log, token);
            && Lifecycle(events)
            && (Guest(log, token).Unknown? <==> events == [])
            && (Guest(log, token).Gone? <==> |events| > 1 && events[|events| - 1].Lost?)
    decreases |log|
  {
    if log == [] {
    } else {
      var before := log[..|log| - 1];
      UnconfusedLifecycle(before, token);
    }
  }

  // ---------- Agreement of one entry with the guest ----------

  predicate SameEndpoint(r: Report, e: Entry) {
    r.port == e.port && NameMatches(r.host, e.host) && r.ipv4 == e.ipv4
  }

  /** Between dispatches: nothing is pending, and exactly the complete entries are known, with their present data. */
  ghost predicate Settled(e: Entry, g: GuestState) {
    e.inUse ==>
      && !e.remove && !e.endpointChanged && !e.txtChanged
      && (e.notified <==> e.Complete())
      && (e.notified ==> g.Known? && SameEndpoint(g.report, e) && g.report.txt == e.txt)
  }

  /** Enough for a dispatch: a known complete entry that is not flagged still has the data the guest knows. */
  ghost predicate Honest(e: Entry, g: GuestState) {
    e.inUse && e.notified && e.Complete() ==>
      && g.Known?
      && (e.endpointChanged || (SameEndpoint(g.report, e) && (e.txtChanged || g.report.txt == e.txt)))
  }

  // ---------- Packets that do not revive a record ----------

  datatype Kind = SrvKind | TxtKind | AKind

  predicate IsKind(r: Record, k: Kind) {
    match k
    case SrvKind => InClass(r) && r.data.Srv?
    case TxtKind => InClass(r) && r.data.Txt?
    case AKind => InClass(r) && r.data.A?
  }

  predicate Withdraws(r: Record, k: Kind, name: seq<byte>) {
    IsKind(r, k) && r.ttl == 0 && NameMatches(r.owner, name)
  }

  /** No record is withdrawn and then announced again in one packet. */
  predicate NoRevival(records: seq<Record>) {
    forall i, j | 0 <= i < j < |records| && records[j].ttl > 0 ::
      forall k: Kind :: IsKind(records[j], k) ==> !Withdraws(records[i], k, records[j].owner)
  }

  ghost predicate Withdrawn(records: seq<Record>, n: nat, k: Kind, name: seq<byte>) {
    exists i :: 0 <= i < n && i < |records| && Withdraws(records[i], k, name)
  }

  /** While a packet is applied: what a known entry lacks was withdrawn by the packet itself. `n` service records and
      `m` address records have been applied. */
  ghost predicate Tracks(e: Entry, g: GuestState, records: seq<Record>, n: nat, m: nat) {
    e.inUse && e.notified ==>
      && g.Known? && g.report.host != []
      && (e.endpointChanged
          || (&& (if e.hasSrv then g.report.port == e.port && NameMatches(g.report.host, e.host)
                  else Withdrawn(records, n, SrvKind, e.fqdn))
              && (if e.hasIpv4 then g.report.ipv4 == e.ipv4 else Withdrawn(records, m, AKind, g.report.host))))
      && (e.txtChanged || (if e.hasTxt then g.report.txt == e.txt else Withdrawn(records, n, TxtKind, e.fqdn)))
  }

  lemma SettledTracks(e: Entry, g: GuestState, records: seq<Record>)
    requires Settled(e, g) && EntrySane(e)
    ensures Tracks(e, g, records, 0, 0)
  {
    if e.inUse && e.notified { MatchesEmpty(g.report.host, e.host); }
  }

  lemma TracksHonest(e: Entry, g: GuestState, records: seq<Record>, n: nat, m: nat)
    requires Tracks(e, g, records, n, m)
    ensures Honest(e, g)
  {
  }

  lemma TracksGrows(e: Entry, g: GuestState, records: seq<Record>, n: nat, m: nat)
    requires Tracks(e, g, records, n, m)
    ensures Tracks(e, g, records, n + 1, m) && Tracks(e, g, records, n, m + 1)
  {
  }

  lemma NotRevived(records: seq<Record>, n: nat, k: Kind, name: seq<byte>)
    requires NoRevival(records) && n < |records| && IsKind(records[n], k) && records[n].ttl > 0
    requires NameMatches(records[n].owner, name)
    ensures !Withdrawn(records, n, k, name)
  {
    forall i | 0 <= i < n
      ensures !Withdraws(records[i], k, name)
    {
      assert !Withdraws(records[i], k, records[n].owner);
    }
  }

  // ---------- One record at a time ----------

  lemma WithdrawalTracks(e: Entry, g: GuestState, records: seq<Record>, n: nat)
    requires Tracks(e, g, records, n, 0) && n < |records| && NameMatches(e.fqdn, records[n].owner)
    requires records[n].ttl == 0 && InClass(records[n])
    ensures records[n].data.Srv? ==> Tracks(ServiceWithdrawn(e, true), g, records, n + 1, 0)
    ensures records[n].data.Txt? ==> Tracks(ServiceWithdrawn(e, false), g, records, n + 1, 0)
  {
    hide Tracks, Withdrawn, NameMatches;
    TracksGrows(e, g, records, n, 0);
    if records[n].data.Srv? {
      NowWithdrawn(records, n, SrvKind, e.fqdn);
      LosesService(e, g, records, n + 1, true);
    }
    if records[n].data.Txt? {
      NowWithdrawn(records, n, TxtKind, e.fqdn);
      LosesService(e, g, records, n + 1, false);
    }
  }

  lemma LosesService(e: Entry, g: GuestState, records: seq<Record>, n: nat, srv: bool)
    requires Tracks(e, g, records, n, 0) && Withdrawn(records, n, if srv then SrvKind else TxtKind, e.fqdn)
    ensures Tracks(ServiceWithdrawn(e, srv), g, records, n, 0)
  {
    hide Withdrawn, NameMatches;
  }

  lemma NowWithdrawn(records: seq<Record>, n: nat, k: Kind, name: seq<byte>)
    requires n < |records| && IsKind(records[n], k) && records[n].ttl == 0 && NameMatches(name, records[n].owner)
    ensures Withdrawn(records, n + 1, k, name)
  {
    assert Withdraws(records[n], k, name);
  }

  lemma SrvTracks(e: Entry, g: GuestState, records: seq<Record>, n: nat, port: u16, expires: u64,
                  cached: Option<Address>)
    requires Tracks(e, g, records, n, 0) && n < |records| && NameMatches(e.fqdn, records[n].owner)
    requires records[n].ttl > 0 && InClass(records[n]) && records[n].data.Srv? && NoRevival(records)
    ensures Tracks(CachedAddressApplied(SrvAnnounced(e, port, records[n].data.target, expires), cached), g, records,
                   n + 1, 0)
  {
    hide Fold, EntrySane;
    if e.inUse && e.notified && !e.endpointChanged {
      NotRevived(records, n, SrvKind, e.fqdn);
      MatchesEmpty(g.report.host, e.host);
    }
    TracksGrows(e, g, records, n, 0);
  }

  lemma TxtTracks(e: Entry, g: GuestState, records: seq<Record>, n: nat, txt: seq<seq<byte>>, expires: u64)
    requires Tracks(e, g, records, n, 0) && n < |records| && NameMatches(e.fqdn, records[n].owner)
    requires records[n].ttl > 0 && InClass(records[n]) && records[n].data.Txt? && NoRevival(records)
    ensures Tracks(TxtAnnounced(e, txt, expires), g, records, n + 1, 0)
  {
    if e.inUse && e.notified && !e.txtChanged {
      NotRevived(records, n, TxtKind, e.fqdn);
    }
    TracksGrows(e, g, records, n, 0);
  }

  lemma AddressWithdrawalTracks(e: Entry, g: GuestState, records: seq<Record>, n: nat, m: nat)
    requires Tracks(e, g, records, n, m) && m < |records|
    requires records[m].ttl == 0 && InClass(records[m]) && records[m].data.A?
    ensures Tracks(AddressWithdrawn(e, records[m].owner), g, records, n, m + 1)
  {
    TracksGrows(e, g, records, n, m);
    if e.inUse && e.notified && !e.endpointChanged && HostedBy(e, records[m].owner) {
      assert Withdraws(records[m], AKind, g.report.host);
    }
  }

  lemma AddressTracks(e: Entry, g: GuestState, records: seq<Record>, n: nat, m: nat, ipv4: Ipv4, expires: u64)
    requires Tracks(e, g, records, n, m) && m < |records|
    requires records[m].ttl > 0 && InClass(records[m]) && records[m].data.A? && NoRevival(records)
    ensures Tracks(AddressAnnounced(e, records[m].owner, ipv4, expires), g, records, n, m + 1)
  {
    TracksGrows(e, g, records, n, m);
    if e.inUse && e.notified && !e.endpointChanged && HostedBy(e, records[m].owner) {
      NotRevived(records, m, AKind, g.report.host);
    }
  }

  // ---------- One record over a whole search ----------

  /** The guest's state for an entry's token. */
  ghost function GuestOf(log: seq<Event>, e: Entry): GuestState {
    if e.token.Some? then Guest(log, e.token.value) else Unknown
  }

  ghost predicate AllTrack(s: Search, log: seq<Event>, records: seq<Record>, n: nat, m: nat) {
    forall i :: 0 <= i < |s.discovered| ==> Tracks(s.discovered[i], GuestOf(log, s.discovered[i]), records, n, m)
  }

  ghost predicate AllSettled(s: Search, log: seq<Event>) {
    s.inUse ==> forall i :: 0 <= i < |s.discovered| ==> Settled(s.discovered[i], GuestOf(log, s.discovered[i]))
  }

  ghost predicate AllHonest(s: Search, log: seq<Event>) {
    forall i :: 0 <= i < |s.discovered| ==> Honest(s.discovered[i], GuestOf(log, s.discovered[i]))
  }

  lemma SettledSearchTracks(s: Search, log: seq<Event>, records: seq<Record>, now: u64)
    requires s.inUse && AllSettled(s, log) && CacheOk(s, now)
    ensures AllTrack(s, log, records, 0, 0)
  {
    forall i | 0 <= i < |s.discovered|
      ensures Tracks(s.discovered[i], GuestOf(log, s.discovered[i]), records, 0, 0)
    {
      assert EntrySane(s.discovered[i]);
      SettledTracks(s.discovered[i], GuestOf(log, s.discovered[i]), records);
    }
  }

  lemma TrackedSearchHonest(s: Search, log: seq<Event>, records: seq<Record>, n: nat, m: nat)
    requires AllTrack(s, log, records, n, m)
    ensures AllHonest(s, log)
  {
    forall i | 0 <= i < |s.discovered|
      ensures Honest(s.discovered[i], GuestOf(log, s.discovered[i]))
    {
      TracksHonest(s.discovered[i], GuestOf(log, s.discovered[i]), records, n, m);
    }
  }

  lemma TrackedEntryReplaced(s: Search, i: nat, e: Entry, log: seq<Event>, records: seq<Record>, n: nat, m: nat)
    requires AllTrack(s, log, records, n, m) && i < |s.discovered|
    requires Tracks(e, GuestOf(log, e), records, n, m)
    ensures AllTrack(WithEntry(s, i, e), log, records, n, m)
  {
  }

  lemma AllTrackGrows(s: Search, log: seq<Event>, records: seq<Record>, n: nat, m: nat)
    requires AllTrack(s, log, records, n, m)
    ensures AllTrack(s, log, records, n + 1, m) && AllTrack(s, log, records, n, m + 1)
  {
    forall i | 0 <= i < |s.discovered|
      ensures Tracks(s.discovered[i], GuestOf(log, s.discovered[i]), records, n + 1, m)
      ensures Tracks(s.discovered[i], GuestOf(log, s.discovered[i]), records, n, m + 1)
    {
      TracksGrows(s.discovered[i], GuestOf(log, s.discovered[i]), records, n, m);
    }
  }

  lemma AllocationTracks(c: Cache, fqdn: seq<byte>, log: seq<Event>, records: seq<Record>, n: nat, m: nat)
    requires AllTrack(c.search, log, records, n, m)
    ensures AllTrack(AllocateEntry(c, fqdn).0.search, log, records, n, m)
  {
  }

  lemma PtrStepTracks(c: Cache, r: Record, now: u64, log: seq<Event>, records: seq<Record>)
    requires AllTrack(c.search, log, records, 0, 0)
    ensures AllTrack(StepPtr(c, r, now).search, log, records, 0, 0)
  {
    hide NameMatches, FindEntry, AllocateEntry, Guest, Withdrawn, Expiry;
    if r.data.Ptr? { AllocationTracks(c, r.data.target, log, records, 0, 0); }
  }

  lemma ServiceStepTracks(c: Cache, now: u64, log: seq<Event>, records: seq<Record>, n: nat)
    requires AllTrack(c.search, log, records, n, 0) && n < |records| && NoRevival(records)
    ensures AllTrack(StepService(c, records[n], now).search, log, records, n + 1, 0)
  {
    hide Tracks, AllocateEntry, InstanceName, SrvAnnounced, CachedAddressApplied, TxtAnnounced, ServiceWithdrawn,
         AcceptedTxt, NoRevival, Guest;
    var r := records[n];
    AllocationTracks(c, r.owner, log, records, n, 0);
    AllTrackGrows(c.search, log, records, n, 0);
    if InClass(r) && (r.data.Srv? || r.data.Txt?) {
      var (c', i) := ServiceEntry(c, r);
      AllTrackGrows(c'.search, log, records, n, 0);
      if i < |c'.search.discovered| {
        var e := c'.search.discovered[i];
        var g := GuestOf(log, e);
        if r.ttl == 0 {
          WithdrawalTracks(e, g, records, n);
          ServiceKeepsToken(e, [], 0);
          TrackedEntryReplaced(c'.search, i, ServiceWithdrawn(e, r.data.Srv?), log, records, n + 1, 0);
        } else if r.data.Srv? {
          var expires, cached := Expiry(now, r.ttl), CachedAddress(c'.search.addresses, r.data.target, now);
          SrvTracks(e, g, records, n, EffectivePort(c'.search, r.data.port), expires, cached);
          SrvKeepsIdentity(e, EffectivePort(c'.search, r.data.port), r.data.target, expires, cached);
          TrackedEntryReplaced(c'.search, i, SrvApplied(c'.search, e, r.data.port, r.data.target, now, r.ttl), log,
                               records, n + 1, 0);
        } else if AcceptedTxt(r).Some? {
          TxtTracks(e, g, records, n, AcceptedTxt(r).value, Expiry(now, r.ttl));
          ServiceKeepsToken(e, AcceptedTxt(r).value, Expiry(now, r.ttl));
          TrackedEntryReplaced(c'.search, i, TxtAnnounced(e, AcceptedTxt(r).value, Expiry(now, r.ttl)), log, records,
                               n + 1, 0);
        }
      }
    }
  }

  lemma ServiceKeepsToken(e: Entry, txt: seq<seq<byte>>, expires: u64)
    ensures ServiceWithdrawn(e, true).token == e.token && ServiceWithdrawn(e, false).token == e.token
    ensures TxtAnnounced(e, txt, expires).token == e.token
  {
  }

  lemma AddressStepTracks(s: Search, now: u64, log: seq<Event>, records: seq<Record>, n: nat, m: nat)
    requires AllTrack(s, log, records, n, m) && m < |records| && NoRevival(records)
    ensures AllTrack(StepAddress(s, records[m], now), log, records, n, m + 1)
  {
    hide Tracks, AllocateAddress, NoRevival, Guest;
    var r, t := records[m], StepAddress(s, records[m], now);
    AllTrackGrows(s, log, records, n, m);
    forall i | 0 <= i < |s.discovered|
      ensures Tracks(t.discovered[i], GuestOf(log, t.discovered[i]), records, n, m + 1)
    {
      var e := s.discovered[i];
      if r.data.A? && InClass(r) {
        if r.ttl == 0 {
          AddressWithdrawalTracks(e, GuestOf(log, e), records, n, m);
        } else {
          AddressTracks(e, GuestOf(log, e), records, n, m, r.data.address, Expiry(now, r.ttl));
        }
      }
    }
  }

  // ---------- Why the hypothesis on packets is needed ----------

  /** The exact condition on one SRV announcement for a known entry: a change is flagged exactly if an SRV was held. */
  lemma SrvFlagExact(e: Entry, r: Report, port: u16, target: seq<byte>, expires: u64)
    requires !e.endpointChanged && e.host != [] && r.port == e.port && NameMatches(r.host, e.host)
    ensures var f := SrvAnnounced(e, port, target, expires);
            var told := f.endpointChanged || (r.port == f.port && NameMatches(r.host, f.host));
            told <==> (e.hasSrv || (port == r.port && NameMatches(r.host, target)))
  {
  }

  lemma TxtFlagExact(e: Entry, r: Report, txt: seq<seq<byte>>, expires: u64)
    requires !e.txtChanged && r.txt == e.txt
    ensures var f := TxtAnnounced(e, txt, expires);
            (f.txtChanged || r.txt == f.txt) <==> (e.hasTxt || txt == r.txt)
  {
  }

  lemma AddressFlagExact(e: Entry, r: Report, host: seq<byte>, ipv4: Ipv4, expires: u64)
    requires !e.endpointChanged && r.ipv4 == e.ipv4 && HostedBy(e, host)
    ensures var f := AddressAnnounced(e, host, ipv4, expires);
            (f.endpointChanged || r.ipv4 == f.ipv4) <==> (e.hasIpv4 || ipv4 == r.ipv4)
  {
  }
}
