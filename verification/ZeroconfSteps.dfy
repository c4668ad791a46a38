/** The state behind all searches: what must hold of it at every moment, and how whole packets and expiries act on one
    search. */
module ZeroconfSteps {
  import opened Options
  import opened WireNames
  import opened WireParse
  import opened ZeroconfCache
  import opened ZeroconfGuest
  import opened ZeroconfTokens

  // ---------- Soundness of the whole state ----------

  /** What a callback or the host may do: the public calls. A pump from inside a callback returns at once. */
  datatype GuestOp =
    | StartOp(serviceType: seq<byte>, domain: seq<byte>, found: bool, update: bool, lost: bool, socketOk: bool,
              now: u64)
    | StopOp(handle: nat)

  /** The accounts kept beside the searches: tokens, notifications, the callbacks invoked, and the calls each of these
      made. */
  datatype Books = Books(loose: Loose, owner: map<nat, Owner>, next: nat, generation: nat,
                         log: seq<Event>, calls: seq<Event>, made: seq<seq<GuestOp>>)

  /** Nothing is taken back: notifications and freed tokens are only added to, no number is used twice, and only
      callbacks make calls. */
  ghost predicate Grown(b: Books, b': Books) {
    && b.log <= b'.log && b.loose.frees <= b'.loose.frees
    && b.next <= b'.next && b.generation <= b'.generation
    && b.calls <= b'.calls && b.made <= b'.made && (b'.calls == b.calls ==> b'.made == b.made)
  }

  ghost predicate SearchOk(s: Search, clock: u64) {
    CacheOk(s, clock) && (!s.inUse ==> NoEntries(s))
  }

  ghost predicate SearchesOk(ss: seq<Search>, clock: u64) {
    |ss| == MAX_SEARCHES && forall k :: 0 <= k < |ss| ==> SearchOk(ss[k], clock)
  }

  /** The accounts of the tokens the entries hold. */
  ghost predicate Owned(ss: seq<Search>, b: Books) {
    && Conserved(ss, b.loose, b.owner, b.next)
    && LogOk(ss, b.generation, b.log)
    && TokensHeard(ss, b.log, b.next)
  }

  /** And of all tokens the guest knows. */
  ghost predicate Accounted(ss: seq<Search>, b: Books) {
    Owned(ss, b) && KnownHeld(b.owner, b.log)
  }

  ghost predicate Sound(ss: seq<Search>, b: Books, clock: u64) {
    SearchesOk(ss, clock) && Accounted(ss, b)
  }

  /** Same token and, if there is one, same standing with the guest. */
  ghost predicate Kept(e: Entry, f: Entry) {
    f.token == e.token && (e.token.Some? ==> f.notified == e.notified)
  }

  ghost predicate AllKept(s: Search, t: Search) {
    && t.inUse == s.inUse && t.generation == s.generation && |t.discovered| == |s.discovered|
    && forall i :: 0 <= i < |s.discovered| ==> Kept(s.discovered[i], t.discovered[i])
  }

  lemma SearchReplaced(ss: seq<Search>, k: nat, s: Search, b: Books)
    requires Accounted(ss, b) && k < |ss| && AllKept(ss[k], s)
    ensures Accounted(ss[k := s], b)
  {
    hide LogOk, Guest, Finder, NoDuplicates, LooseOwn, KnownHeld;
    TokensKept(ss, ss[k := s], b.loose, b.owner, b.next);
    LogSlotKept(ss, b.generation, b.log, k, s);
    forall i | 0 <= i < |s.discovered|
      ensures EntryHeard(s.discovered[i], s.generation, b.log)
    {
      assert EntryHeard(ss[k].discovered[i], ss[k].generation, b.log);
    }
    HeardKept(ss, b.log, b.next, k, s, b.next);
  }

  /** A new entry in a slot without a token takes the next token. */
  lemma EntryCreated(ss: seq<Search>, k: nat, i: nat, e: Entry, b: Books)
    requires Accounted(ss, b) && k < |ss| && i < |ss[k].discovered| && ss[k].discovered[i].token.None?
    requires e.token == Some(b.next) && !e.notified
    ensures Accounted(ss[k := WithEntry(ss[k], i, e)],
                      b.(owner := b.owner[b.next := InEntry(k, i)], next := b.next + 1))
  {
    hide LogOk, Guest, Finder, NoDuplicates, LooseOwn, KnownHeld;
    var s := WithEntry(ss[k], i, e);
    TokenAllocated(ss, ss[k := s], b.loose, b.owner, b.next, k, i);
    LogSlotKept(ss, b.generation, b.log, k, s);
    forall j | 0 <= j < |s.discovered|
      ensures EntryHeard(s.discovered[j], s.generation, b.log)
    {
      if j != i { assert EntryHeard(ss[k].discovered[j], ss[k].generation, b.log); }
    }
    HeardKept(ss, b.log, b.next, k, s, b.next + 1);
    OwnerMoved(b.owner, b.log, b.next, InEntry(k, i));
  }

  /** The log once the search in a slot is cleared. */
  function ClearedLog(s: Search, log: seq<Event>): seq<Event> {
    if s.inUse then log + [Stopped(s.generation)] else log
  }

  /** A stop says nothing about tokens, and excuses what is forgotten about its own search only. */
  lemma StopHeard(log: seq<Event>, generation: nat)
    ensures SameGuest(log, log + [Stopped(generation)])
    ensures forall t :: Finder(log + [Stopped(generation)], t) == Finder(log, t)
  {
    forall t
      ensures Guest(log + [Stopped(generation)], t) == Guest(log, t)
      ensures Finder(log + [Stopped(generation)], t) == Finder(log, t)
    {
      GuestHears(log, Stopped(generation), t);
    }
  }

  /** A slot without tokens is emptied; a search that was running is recorded as stopped. */
  lemma SlotCleared(ss: seq<Search>, k: nat, b: Books)
    requires Owned(ss, b) && k < |ss| && |ss[k].discovered| == MAX_DISCOVERED
    requires forall i :: 0 <= i < |ss[k].discovered| ==> ss[k].discovered[i].token.None?
    requires KnownHeld(b.owner, ClearedLog(ss[k], b.log))
    ensures Accounted(ss[k := EmptySearch()], b.(log := ClearedLog(ss[k], b.log)))
    ensures SameGuest(b.log, ClearedLog(ss[k], b.log))
  {
    hide LogOk, NoDuplicates, LooseOwn, Guest, Finder, KnownHeld;
    var s := EmptySearch();
    var log := ClearedLog(ss[k], b.log);
    StopHeard(b.log, ss[k].generation);
    if ss[k].inUse { LogStop(ss, b.generation, b.log, k); } else { LogSlotKept(ss, b.generation, b.log, k, s); }
    TokensKept(ss, ss[k := s], b.loose, b.owner, b.next);
    forall m, i | 0 <= m < |ss| && 0 <= i < |ss[m].discovered|
      ensures EntryHeard(ss[m].discovered[i], ss[m].generation, log)
    {
      assert EntryHeard(ss[m].discovered[i], ss[m].generation, b.log);
    }
    HeardKept(ss, log, b.next, k, s, b.next);
  }

  /** A free slot takes another empty search, unused or with the next generation. */
  lemma SlotFilled(ss: seq<Search>, k: nat, s: Search, b: Books)
    requires Accounted(ss, b) && k < |ss| && NoEntries(ss[k]) && NoEntries(s) && |s.discovered| == |ss[k].discovered|
    requires s.inUse ==> s.generation == b.generation + 1
    ensures Accounted(ss[k := s], if s.inUse then b.(generation := b.generation + 1) else b)
  {
    hide LogOk, Guest, Finder, NoDuplicates, LooseOwn, KnownHeld;
    TokensKept(ss, ss[k := s], b.loose, b.owner, b.next);
    if s.inUse { LogStart(ss, b.generation, b.log, k, s); } else { LogSlotKept(ss, b.generation, b.log, k, s); }
    HeardKept(ss, b.log, b.next, k, s, b.next);
  }

  /** An entry gives up its token. */
  lemma TokenLeaves(ss: seq<Search>, k: nat, i: nat, t: nat, b: Books)
    requires Owned(ss, b) && k < |ss| && i < |ss[k].discovered| && ss[k].discovered[i].token == Some(t)
    ensures t !in b.loose.inFlight && t in b.owner
    ensures Owned(ss[k := WithEntry(ss[k], i, ss[k].discovered[i].(token := None))],
                  b.(loose := b.loose.(inFlight := b.loose.inFlight + {t}), owner := b.owner[t := InFlight]))
  {
    hide LogOk, Guest, Finder, NoDuplicates, LooseOwn;
    var s := WithEntry(ss[k], i, ss[k].discovered[i].(token := None));
    assert Holds(ss, k, i, t);
    TokenTaken(ss, ss[k := s], b.loose, b.owner, b.next, k, i, t);
    LogSlotKept(ss, b.generation, b.log, k, s);
    forall j | 0 <= j < |s.discovered|
      ensures EntryHeard(s.discovered[j], s.generation, b.log)
    {
      if j != i { assert EntryHeard(ss[k].discovered[j], ss[k].generation, b.log); }
    }
    HeardKept(ss, b.log, b.next, k, s, b.next);
  }

  /** What the guest knows about the token of an entry that is not notified, or of one whose search ends. */
  lemma Forgettable(ss: seq<Search>, k: nat, i: nat, b: Books)
    requires Owned(ss, b) && k < |ss| && i < |ss[k].discovered| && ss[k].discovered[i].token.Some?
    ensures var t := ss[k].discovered[i].token.value;
            && (!ss[k].discovered[i].notified ==> !Guest(b.log, t).Known?)
            && (Guest(b.log, t).Known? ==> Finder(b.log, t) == ss[k].generation)
  {
    hide LogOk, Guest, Finder, Conserved;
    assert EntryHeard(ss[k].discovered[i], ss[k].generation, b.log);
  }

  /** While a search is cleared its tokens may leave: once it is recorded as stopped, nothing was forgotten untold. */
  lemma MayLeave(ss: seq<Search>, k: nat, i: nat, b: Books, o: Owner)
    requires Owned(ss, b) && k < |ss| && ss[k].inUse && i < |ss[k].discovered| && ss[k].discovered[i].token.Some?
    requires KnownHeld(b.owner, ClearedLog(ss[k], b.log))
    ensures KnownHeld(b.owner[ss[k].discovered[i].token.value := o], ClearedLog(ss[k], b.log))
  {
    hide Owned, KnownHeld, Guest, Finder;
    Forgettable(ss, k, i, b);
    StopHeard(b.log, ss[k].generation);
    OwnerMoved(b.owner, ClearedLog(ss[k], b.log), ss[k].discovered[i].token.value, o);
  }

  // ---------- What callbacks may do to a slot ----------

  /** A slot is as it was, or its search was stopped: then it is free or holds a newer, empty search. */
  ghost predicate SlotKept(s: Search, t: Search, generation: nat) {
    t == s || (NoEntries(t) && (t.inUse ==> t.generation > generation))
  }

  ghost predicate Undisturbed(ss: seq<Search>, tt: seq<Search>, generation: nat) {
    |tt| == |ss| && forall k :: 0 <= k < |ss| ==> SlotKept(ss[k], tt[k], generation)
  }

  ghost predicate SameGuest(log: seq<Event>, log': seq<Event>) {
    forall t :: Guest(log', t) == Guest(log, t)
  }

  lemma SameButThen(log: seq<Event>, mid: seq<Event>, log': seq<Event>, t: nat)
    requires SameBut(log, mid, t) && SameGuest(mid, log')
    ensures SameBut(log, log', t) && Guest(log', t) == Guest(mid, t)
  {
    hide Guest;
  }

  lemma GrownNone(b: Books)
    ensures Grown(b, b)
  {
  }

  lemma GrownBound(b: Books, b': Books)
    requires Grown(b, b')
    ensures b.generation <= b'.generation && b.next <= b'.next && b.made <= b'.made
  {
  }

  lemma GrownOn(b: Books, m: Books, b': Books)
    requires Grown(b, m) && Grown(m, b')
    ensures Grown(b, b') && b.generation <= m.generation && b.next <= m.next && m.made <= b'.made
  {
  }

  lemma SoundMade(ss: seq<Search>, b: Books, clock: u64, calls: seq<Event>, made: seq<seq<GuestOp>>)
    requires Sound(ss, b, clock)
    ensures Sound(ss, b.(calls := calls, made := made), clock)
  {
  }

  /** The same search is still there: generations are never used twice. */
  predicate SameSearch(s: Search, t: Search) {
    s.inUse && t.inUse && s.generation == t.generation
  }

  // ---------- A packet's records on one search ----------

  function FoldPtr(c: Cache, records: seq<Record>, now: u64): Cache
    decreases |records|
  {
    if records == [] then c else FoldPtr(StepPtr(c, records[0], now), records[1..], now)
  }

  function FoldService(c: Cache, records: seq<Record>, now: u64): Cache
    decreases |records|
  {
    if records == [] then c else FoldService(StepService(c, records[0], now), records[1..], now)
  }

  function FoldAddress(s: Search, records: seq<Record>, now: u64): Search
    decreases |records|
  {
    if records == [] then s else FoldAddress(StepAddress(s, records[0], now), records[1..], now)
  }

  function FollowedUpSearch(s: Search, now: u64): Search {
    s.(discovered := MapEntries(s.discovered, e => FollowedUp(e, now)))
  }

  /** All PTR records, then all SRV and TXT records, then all addresses, then the follow-up queries. */
  function PacketApplied(c: Cache, records: seq<Record>, now: u64): Search {
    FollowedUpSearch(FoldAddress(FoldService(FoldPtr(c, records, now), records, now).search, records, now), now)
  }

  lemma {:induction false} FoldPtrTracks(c: Cache, rest: seq<Record>, now: u64, log: seq<Event>, records: seq<Record>)
    requires AllTrack(c.search, log, records, 0, 0)
    ensures AllTrack(FoldPtr(c, rest, now).search, log, records, 0, 0)
    decreases |rest|
  {
    hide AllTrack, StepPtr;
    if rest == [] {
    } else {
      PtrStepTracks(c, rest[0], now, log, records);
      FoldPtrTracks(StepPtr(c, rest[0], now), rest[1..], now, log, records);
    }
  }

  lemma {:induction false} FoldServiceTracks(c: Cache, now: u64, log: seq<Event>, records: seq<Record>, n: nat)
    requires AllTrack(c.search, log, records, n, 0) && n <= |records| && NoRevival(records)
    ensures AllTrack(FoldService(c, records[n..], now).search, log, records, |records|, 0)
    decreases |records| - n
  {
    hide AllTrack, StepService, NoRevival;
    if n == |records| {
    } else {
      ServiceStepTracks(c, now, log, records, n);
      FoldServiceTracks(StepService(c, records[n], now), now, log, records, n + 1);
      assert records[n..][1..] == records[n + 1..];
    }
  }

  lemma {:induction false} FoldAddressTracks(s: Search, now: u64, log: seq<Event>, records: seq<Record>, n: nat, m: nat)
    requires AllTrack(s, log, records, n, m) && m <= |records| && NoRevival(records)
    ensures AllTrack(FoldAddress(s, records[m..], now), log, records, n, |records|)
    decreases |records| - m
  {
    hide AllTrack, StepAddress, NoRevival;
    if m == |records| {
    } else {
      AddressStepTracks(s, now, log, records, n, m);
      FoldAddressTracks(StepAddress(s, records[m], now), now, log, records, n, m + 1);
      assert records[m..][1..] == records[m + 1..];
    }
  }

  /** A packet that revives no record turns a settled search into an honest one. */
  lemma PacketHonest(c: Cache, records: seq<Record>, now: u64, log: seq<Event>)
    requires c.search.inUse && AllSettled(c.search, log) && CacheOk(c.search, now) && NoRevival(records)
    ensures AllHonest(PacketApplied(c, records, now), log)
  {
    hide AllTrack, AllSettled, CacheOk, NoRevival, FoldPtr, FoldService, FoldAddress, AllHonest, FollowedUpSearch;
    SettledSearchTracks(c.search, log, records, now);
    FoldPtrTracks(c, records, now, log, records);
    var p := FoldPtr(c, records, now);
    assert records[0..] == records;
    FoldServiceTracks(p, now, log, records, 0);
    var v := FoldService(p, records, now).search;
    FoldAddressTracks(v, now, log, records, |records|, 0);
    var a := FoldAddress(v, records, now);
    TrackedSearchHonest(a, log, records, |records|, |records|);
    FollowUpHonest(a, now, log);
  }

  lemma FollowUpHonest(s: Search, now: u64, log: seq<Event>)
    requires AllHonest(s, log)
    ensures AllHonest(FollowedUpSearch(s, now), log)
  {
    hide Guest, SameEndpoint;
    var t := FollowedUpSearch(s, now);
    forall i | 0 <= i < |t.discovered|
      ensures Honest(t.discovered[i], GuestOf(log, t.discovered[i]))
    {
      assert Honest(s.discovered[i], GuestOf(log, s.discovered[i]));
    }
  }

  /** Expiry only takes records away: what is still complete was complete, and known, before. */
  lemma ExpiryHonest(s: Search, now: u64, log: seq<Event>)
    requires s.inUse && AllSettled(s, log)
    ensures AllHonest(ExpiredSearch(s, now), log)
  {
    hide Guest, SameEndpoint;
    var t := ExpiredSearch(s, now);
    forall i | 0 <= i < |t.discovered|
      ensures Honest(t.discovered[i], GuestOf(log, t.discovered[i]))
    {
      assert Settled(s.discovered[i], GuestOf(log, s.discovered[i]));
    }
  }

  // ---------- The accounts while records are applied ----------

  predicate SameIdentity(s: Search, t: Search) {
    t.inUse == s.inUse && t.generation == s.generation
  }

  /** Only new tokens were entered into the books. */
  ghost predicate Entered(b: Books, b': Books) {
    b.next <= b'.next && b' == b.(owner := b'.owner, next := b'.next)
  }

  lemma AllocationAccounted(ss: seq<Search>, k: nat, fqdn: seq<byte>, now: u64, b: Books) returns (b': Books)
    requires k < |ss| && Accounted(ss, b) && CacheOk(ss[k], now)
    ensures var c' := AllocateEntry(Cache(ss[k], b.next), fqdn).0;
            && Accounted(ss[k := c'.search], b') && b'.next == c'.nextToken && Entered(b, b')
            && CacheOk(c'.search, now) && SameIdentity(ss[k], c'.search)
  {
    hide Accounted, AddressAgreement, Distinct, InstanceName;
    b' := b;
    AllocationKeeps(Cache(ss[k], b.next), fqdn, now);
    var d := ss[k].discovered;
    var free := FreeEntry(d);
    var c' := AllocateEntry(Cache(ss[k], b.next), fqdn).0;
    if c' == Cache(ss[k], b.next) {
      assert ss[k := ss[k]] == ss;
    } else {
      assert EntrySane(d[free]) && d[free].token.None?;
      if c'.nextToken == b.next {
        SearchReplaced(ss, k, c'.search, b);
      } else {
        EntryCreated(ss, k, free, c'.search.discovered[free], b);
        b' := b.(owner := b.owner[b.next := InEntry(k, free)], next := b.next + 1);
      }
    }
  }

  /** Overwriting an entry after an allocation. */
  lemma StoreAccounted(ss: seq<Search>, k: nat, s: Search, i: nat, e: Entry, b: Books)
    requires k < |ss| && Accounted(ss[k := s], b) && i < |s.discovered| && Kept(s.discovered[i], e)
    ensures Accounted(ss[k := WithEntry(s, i, e)], b)
  {
    hide Accounted;
    SearchReplaced(ss[k := s], k, WithEntry(s, i, e), b);
    assert ss[k := s][k := WithEntry(s, i, e)] == ss[k := WithEntry(s, i, e)];
  }

  lemma PtrAccounted(ss: seq<Search>, k: nat, r: Record, now: u64, b: Books) returns (b': Books)
    requires k < |ss| && Accounted(ss, b) && CacheOk(ss[k], now)
    ensures var c' := StepPtr(Cache(ss[k], b.next), r, now);
            && Accounted(ss[k := c'.search], b') && b'.next == c'.nextToken && Entered(b, b')
            && CacheOk(c'.search, now) && SameIdentity(ss[k], c'.search)
  {
    hide Accounted, CacheOk, AllocateEntry, NameMatches, Expiry;
    b' := b;
    var c := Cache(ss[k], b.next);
    assert ss[k := ss[k]] == ss;
    PtrKeeps(c, r, now);
    if r.data.Ptr? && InClass(r) && NameMatches(r.owner, c.search.serviceFqdn) {
      var e' := StepPtr(c, r, now).search.discovered;
      if r.ttl == 0 {
        var i := FindEntry(c.search.discovered, r.data.target);
        if i < |c.search.discovered| { StoreAccounted(ss, k, c.search, i, e'[i], b); }
      } else {
        b' := AllocationAccounted(ss, k, r.data.target, now, b);
        var (c', i) := AllocateEntry(c, r.data.target);
        if i < |c'.search.discovered| { StoreAccounted(ss, k, c'.search, i, e'[i], b'); }
      }
    }
  }

  lemma ServiceAccounted(ss: seq<Search>, k: nat, r: Record, now: u64, b: Books) returns (b': Books)
    requires k < |ss| && Accounted(ss, b) && CacheOk(ss[k], now)
    ensures var c' := StepService(Cache(ss[k], b.next), r, now);
            && Accounted(ss[k := c'.search], b') && b'.next == c'.nextToken && Entered(b, b')
            && CacheOk(c'.search, now) && SameIdentity(ss[k], c'.search)
  {
    hide Accounted, CacheOk, AllocateEntry, FindEntry, NameMatches, Expiry, InstanceName, AcceptedTxt, SrvAnnounced,
         CachedAddressApplied, TxtAnnounced, ServiceWithdrawn;
    b' := b;
    var c := Cache(ss[k], b.next);
    assert ss[k := ss[k]] == ss;
    ServiceKeeps(c, r, now);
    if InClass(r) && (r.data.Srv? || r.data.Txt?) {
      var (c', i) := ServiceEntry(c, r);
      if (c', i) == AllocateEntry(c, r.owner) {
        b' := AllocationAccounted(ss, k, r.owner, now, b);
      }
      if i < |c'.search.discovered| {
        var e := c'.search.discovered[i];
        if r.ttl == 0 {
          WithdrawnKept(e, r.data.Srv?);
          StoreAccounted(ss, k, c'.search, i, ServiceWithdrawn(e, r.data.Srv?), b');
        } else if r.data.Srv? {
          SrvKeepsIdentity(e, EffectivePort(c'.search, r.data.port), r.data.target, Expiry(now, r.ttl),
                           CachedAddress(c'.search.addresses, r.data.target, now));
          StoreAccounted(ss, k, c'.search, i, SrvApplied(c'.search, e, r.data.port, r.data.target, now, r.ttl), b');
        } else if AcceptedTxt(r).Some? {
          TxtKept(e, AcceptedTxt(r).value, Expiry(now, r.ttl));
          StoreAccounted(ss, k, c'.search, i, TxtAnnounced(e, AcceptedTxt(r).value, Expiry(now, r.ttl)), b');
        }
      }
    }
  }

  lemma WithdrawnKept(e: Entry, srv: bool)
    ensures Kept(e, ServiceWithdrawn(e, srv))
  {
  }

  lemma TxtKept(e: Entry, txt: seq<seq<byte>>, expires: u64)
    ensures Kept(e, TxtAnnounced(e, txt, expires))
  {
  }

  lemma AddressAccounted(ss: seq<Search>, k: nat, r: Record, now: u64, b: Books)
    requires k < |ss| && Accounted(ss, b) && CacheOk(ss[k], now)
    ensures var t := StepAddress(ss[k], r, now);
            Accounted(ss[k := t], b) && CacheOk(t, now) && SameIdentity(ss[k], t)
  {
    hide Accounted, CacheOk, NameMatches, AllocateAddress, FindAddress, Expiry;
    AddressKeeps(ss[k], r, now);
    SearchReplaced(ss, k, StepAddress(ss[k], r, now), b);
  }

  lemma {:induction false} FoldPtrAccounted(ss: seq<Search>, k: nat, rs: seq<Record>, now: u64, b: Books)
    returns (b': Books)
    requires k < |ss| && Accounted(ss, b) && CacheOk(ss[k], now)
    ensures var c' := FoldPtr(Cache(ss[k], b.next), rs, now);
            && Accounted(ss[k := c'.search], b') && b'.next == c'.nextToken && Entered(b, b')
            && CacheOk(c'.search, now) && SameIdentity(ss[k], c'.search)
    decreases |rs|
  {
    hide Accounted, CacheOk, StepPtr;
    b' := b;
    assert ss[k := ss[k]] == ss;
    if rs == [] {
    } else {
      var c := StepPtr(Cache(ss[k], b.next), rs[0], now);
      b' := PtrAccounted(ss, k, rs[0], now, b);
      b' := FoldPtrAccounted(ss[k := c.search], k, rs[1..], now, b');
      var end := FoldPtr(c, rs[1..], now).search;
      assert ss[k := c.search][k := end] == ss[k := end];
    }
  }

  lemma {:induction false} FoldServiceAccounted(ss: seq<Search>, k: nat, rs: seq<Record>, now: u64, b: Books)
    returns (b': Books)
    requires k < |ss| && Accounted(ss, b) && CacheOk(ss[k], now)
    ensures var c' := FoldService(Cache(ss[k], b.next), rs, now);
            && Accounted(ss[k := c'.search], b') && b'.next == c'.nextToken && Entered(b, b')
            && CacheOk(c'.search, now) && SameIdentity(ss[k], c'.search)
    decreases |rs|
  {
    hide Accounted, CacheOk, StepService;
    b' := b;
    assert ss[k := ss[k]] == ss;
    if rs == [] {
    } else {
      var c := StepService(Cache(ss[k], b.next), rs[0], now);
      b' := ServiceAccounted(ss, k, rs[0], now, b);
      b' := FoldServiceAccounted(ss[k := c.search], k, rs[1..], now, b');
      var end := FoldService(c, rs[1..], now).search;
      assert ss[k := c.search][k := end] == ss[k := end];
    }
  }

  lemma {:induction false} FoldAddressAccounted(ss: seq<Search>, k: nat, rs: seq<Record>, now: u64, b: Books)
    requires k < |ss| && Accounted(ss, b) && CacheOk(ss[k], now)
    ensures var t := FoldAddress(ss[k], rs, now);
            Accounted(ss[k := t], b) && CacheOk(t, now) && SameIdentity(ss[k], t)
    decreases |rs|
  {
    hide Accounted, CacheOk, StepAddress;
    assert ss[k := ss[k]] == ss;
    if rs == [] {
    } else {
      var s := StepAddress(ss[k], rs[0], now);
      AddressAccounted(ss, k, rs[0], now, b);
      FoldAddressAccounted(ss[k := s], k, rs[1..], now, b);
      var end := FoldAddress(s, rs[1..], now);
      assert ss[k := s][k := end] == ss[k := end];
    }
  }

  /** Follow-up queries and expiry keep every token where it is. */
  lemma FollowUpAccounted(ss: seq<Search>, k: nat, at: u64, now: u64, b: Books)
    requires k < |ss| && Accounted(ss, b) && CacheOk(ss[k], now)
    ensures var t := FollowedUpSearch(ss[k], at);
            Accounted(ss[k := t], b) && CacheOk(t, now) && SameIdentity(ss[k], t)
  {
    hide Accounted, CacheOk;
    FollowUpKeeps(ss[k], at, now);
    SearchReplaced(ss, k, FollowedUpSearch(ss[k], at), b);
  }

  lemma ExpiryAccounted(ss: seq<Search>, k: nat, at: u64, now: u64, b: Books)
    requires k < |ss| && Accounted(ss, b) && CacheOk(ss[k], now) && at <= now
    ensures var t := ExpiredSearch(ss[k], at);
            Accounted(ss[k := t], b) && CacheOk(t, now) && SameIdentity(ss[k], t)
  {
    hide Accounted, CacheOk;
    ExpiryKeeps(ss[k], at, now);
    SearchReplaced(ss, k, ExpiredSearch(ss[k], at), b);
  }

  /** A whole packet on one search keeps all invariants; the books only gain new tokens. */
  lemma PacketAccounted(ss: seq<Search>, k: nat, rs: seq<Record>, now: u64, b: Books) returns (b': Books)
    requires k < |ss| && Accounted(ss, b) && CacheOk(ss[k], now)
    ensures var c := Cache(ss[k], b.next);
            var t := PacketApplied(c, rs, now);
            && Accounted(ss[k := t], b') && Entered(b, b')
            && b'.next == FoldService(FoldPtr(c, rs, now), rs, now).nextToken
            && CacheOk(t, now) && SameIdentity(ss[k], t)
  {
    hide Accounted, CacheOk, FoldPtr, FoldService, FoldAddress, FollowedUpSearch;
    var p := FoldPtr(Cache(ss[k], b.next), rs, now);
    b' := FoldPtrAccounted(ss, k, rs, now, b);
    var v := FoldService(p, rs, now);
    b' := FoldServiceAccounted(ss[k := p.search], k, rs, now, b');
    assert ss[k := p.search][k := v.search] == ss[k := v.search];
    var a := FoldAddress(v.search, rs, now);
    FoldAddressAccounted(ss[k := v.search], k, rs, now, b');
    assert ss[k := v.search][k := a] == ss[k := a];
    var t := FollowedUpSearch(a, now);
    FollowUpAccounted(ss[k := a], k, now, now, b');
    assert ss[k := a][k := t] == ss[k := t];
  }

  // ---------- One dispatch ----------

  predicate Rotates(e: Entry) {
    e.inUse && e.notified && (e.remove || !e.Complete() || e.endpointChanged)
  }

  /** An entry after its dispatch: gone if it was to be removed, otherwise known exactly if it is complete. */
  function DispatchedEntry(e: Entry, token: Option<nat>): Entry {
    if !e.inUse then e
    else if e.remove then EMPTY_ENTRY
    else e.(token := token, notified := e.Complete(), endpointChanged := false, txtChanged := false)
  }

  function TokenAfter(e: Entry, next: nat): Option<nat> {
    if Rotates(e) then Some(next) else e.token
  }

  function Unflagged(e: Entry): Entry {
    e.(endpointChanged := false, txtChanged := false)
  }

  function Told(e: Entry, token: Option<nat>): Entry {
    e.(notified := true, token := token)
  }

  /** The three ways an entry that stays gets through its dispatch. */
  lemma DispatchedParts(e: Entry, next: nat)
    requires e.inUse && !e.remove
    ensures !e.Complete() ==>
      DispatchedEntry(e, TokenAfter(e, next)) == Unflagged(if e.notified then Replaced(e, next) else e)
    ensures e.Complete() ==> DispatchedEntry(e, TokenAfter(e, next)) == Unflagged(Told(e, TokenAfter(e, next)))
    ensures e.notified ==> Told(e, e.token) == e
    ensures Replaced(e, next).changes == e.changes && Told(e, TokenAfter(e, next)).changes == e.changes
  {
  }

  /** What the guest knows about a complete entry after its dispatch. */
  function GuestAfter(e: Entry, g: GuestState): GuestState {
    if !e.notified || e.endpointChanged then Known(ReportOf(e))
    else if e.txtChanged && g.Known? then Known(g.report.(txt := e.txt))
    else g
  }

  /** What one dispatch of an entry tells the guest: nothing about other tokens, the loss of a replaced one,
      and the state of a complete entry. */
  ghost predicate EntryTold(e: Entry, next: nat, log: seq<Event>, log': seq<Event>, stopped: bool) {
    && (forall t: nat :: t < next && Some(t) != e.token ==> Guest(log', t) == Guest(log, t))
    && (Rotates(e) ==> e.token.Some? && Guest(log', e.token.value) == Gone)
    && (!stopped && e.inUse && !e.remove && e.Complete() ==>
          GuestOf(log', DispatchedEntry(e, TokenAfter(e, next))) == GuestAfter(e, GuestOf(log, e)))
  }

  lemma ToldFound(e: Entry, next: nat, log: seq<Event>, log': seq<Event>, stopped: bool)
    requires e.inUse && !e.remove && e.Complete() && !e.notified && e.token.Some?
    requires SameBut(log, log', e.token.value) && Guest(log', e.token.value) == Known(ReportOf(e))
    ensures EntryTold(e, next, log, log', stopped)
  {
    hide Guest;
  }

  lemma ToldUpdated(e: Entry, next: nat, log: seq<Event>, log': seq<Event>, stopped: bool)
    requires e.inUse && !e.remove && e.Complete() && e.notified && !e.endpointChanged && e.txtChanged && e.token.Some?
    requires SameBut(log, log', e.token.value) && Guest(log, e.token.value).Known?
    requires Guest(log', e.token.value) == Known(Guest(log, e.token.value).report.(txt := e.txt))
    ensures EntryTold(e, next, log, log', stopped)
  {
    hide Guest;
  }

  /** An entry that is removed or lacks a record is lost if it was known; nothing else is said. */
  lemma ToldLost(e: Entry, next: nat, log: seq<Event>, log': seq<Event>, stopped: bool)
    requires e.inUse && (e.remove || !e.Complete()) && e.token.Some?
    requires if e.notified then SameBut(log, log', e.token.value) && Guest(log', e.token.value) == Gone else log' == log
    ensures EntryTold(e, next, log, log', stopped)
  {
    hide Guest;
  }

  /** Lost, and found again under a new token unless the search was stopped in between. */
  lemma ToldMoved(e: Entry, next: nat, log: seq<Event>, mid: seq<Event>, log': seq<Event>, stopped: bool)
    requires e.inUse && !e.remove && e.Complete() && e.notified && e.endpointChanged && e.token.Some?
    requires SameBut(log, mid, e.token.value) && Guest(mid, e.token.value) == Gone && e.token.value < next
    requires if stopped then log' == mid else SameBut(mid, log', next) && Guest(log', next) == Known(ReportOf(e))
    ensures EntryTold(e, next, log, log', stopped)
  {
    hide Guest;
  }

  lemma ToldNothing(e: Entry, next: nat, log: seq<Event>, stopped: bool)
    requires e.inUse && !e.remove && e.Complete() && e.notified && !e.endpointChanged && !e.txtChanged && e.token.Some?
    ensures EntryTold(e, next, log, log, stopped)
  {
    hide Guest;
  }

  lemma ToldStopped(e: Entry, next: nat, log: seq<Event>, log': seq<Event>)
    requires EntryTold(e, next, log, log', false)
    ensures EntryTold(e, next, log, log', true)
  {
  }

  /** An honest entry is settled by its dispatch. */
  lemma DispatchSettles(e: Entry, g: GuestState, token: Option<nat>, g': GuestState)
    requires Honest(e, g) && (e.inUse && !e.remove && e.Complete() ==> g' == GuestAfter(e, g))
    ensures Settled(DispatchedEntry(e, token), g')
  {
  }

  /** Marks and tokens do not touch the caches. */
  lemma MarkedOk(s: Search, i: nat, e: Entry, clock: u64)
    requires SearchOk(s, clock) && s.inUse && i < |s.discovered|
    requires e == s.discovered[i].(token := e.token, notified := e.notified, endpointChanged := e.endpointChanged,
                             txtChanged := e.txtChanged)
    requires e.token.Some? <==> s.discovered[i].token.Some?
    ensures SearchOk(WithEntry(s, i, e), clock)
  {
    assert EntrySane(s.discovered[i]);
    forall j | 0 <= j < |s.addresses|
      ensures Agrees(e, s.addresses[j], clock)
    {
      assert Agrees(s.discovered[i], s.addresses[j], clock);
    }
    EntryReplaced(s, i, e, clock);
  }

  lemma ClearedOk(s: Search, i: nat, clock: u64)
    requires SearchOk(s, clock) && s.inUse && i < |s.discovered|
    ensures SearchOk(WithEntry(s, i, EMPTY_ENTRY), clock)
  {
    NewEntryKeeps(s, i, EMPTY_ENTRY, clock);
  }

  lemma EntryHasToken(s: Search, i: nat, clock: u64)
    requires SearchOk(s, clock) && i < |s.discovered|
    ensures |s.discovered| == MAX_DISCOVERED && (s.discovered[i].inUse <==> s.discovered[i].token.Some?)
  {
    assert EntrySane(s.discovered[i]);
  }

  lemma SearchStored(ss: seq<Search>, k: nat, s: Search, clock: u64)
    requires SearchesOk(ss, clock) && k < |ss| && SearchOk(s, clock)
    ensures SearchesOk(ss[k := s], clock)
  {
  }

  lemma StoredTwice(ss: seq<Search>, k: nat, i: nat, e: Entry, f: Entry)
    requires k < |ss| && i < |ss[k].discovered|
    ensures ss[k := WithEntry(ss[k], i, e)][k := WithEntry(WithEntry(ss[k], i, e), i, f)]
         == ss[k := WithEntry(ss[k], i, f)]
  {
    assert ss[k].discovered[i := e][i := f] == ss[k].discovered[i := f];
  }

  lemma EntryTwice(s: Search, i: nat, e: Entry, f: Entry)
    requires i < |s.discovered|
    ensures WithEntry(WithEntry(s, i, e), i, f) == WithEntry(s, i, f) && WithEntry(s, i, e).discovered[i] == e
  {
    assert s.discovered[i := e][i := f] == s.discovered[i := f];
  }

  function Replaced(e: Entry, token: nat): Entry {
    e.(token := Some(token), notified := false)
  }

  /** The books after a rotation of entry i in slot k. */
  ghost function RotatedBooks(b: Books, k: nat, i: nat, t: nat, generation: nat, delivered: bool): Books {
    Books(b.loose.(inFlight := b.loose.inFlight + {t}), b.owner[t := InFlight][b.next := InEntry(k, i)],
          b.next + 1, b.generation, b.log + [Lost(generation, t, delivered)], b.calls, b.made)
  }

  lemma RotationGrows(b: Books, k: nat, i: nat, t: nat, generation: nat, delivered: bool)
    ensures Grown(b, RotatedBooks(b, k, i, t, generation, delivered))
  {
  }

  lemma RotationSound(ss: seq<Search>, k: nat, i: nat, b: Books, clock: u64) returns (t: nat)
    requires Sound(ss, b, clock) && k < |ss| && ss[k].inUse && i < |ss[k].discovered|
    requires ss[k].discovered[i].inUse && ss[k].discovered[i].notified
    ensures ss[k].discovered[i].token == Some(t) && t < b.next && t !in b.loose.inFlight
    ensures var b' := RotatedBooks(b, k, i, t, ss[k].generation, ss[k].lost);
            && Sound(ss[k := WithEntry(ss[k], i, Replaced(ss[k].discovered[i], b.next))], b', clock)
            && SameBut(b.log, b'.log, t) && Guest(b'.log, t) == Gone
  {
    hide Accounted, CacheOk, Guest, NoEntries, SameBut;
    var e := ss[k].discovered[i];
    EntryHasToken(ss[k], i, clock);
    t := e.token.value;
    MarkedOk(ss[k], i, Replaced(e, b.next), clock);
    SearchStored(ss, k, WithEntry(ss[k], i, Replaced(e, b.next)), clock);
    RotationAccounted(ss, k, i, t, ss[k].lost, b);
  }

  /** A search that still answers to its generation after callbacks is untouched. */
  lemma StillThere(ss: seq<Search>, k: nat, a: Search, mid: seq<Search>, b: Books)
    requires k < |ss| && Accounted(ss, b) && ss[k].inUse && a.generation == ss[k].generation
    requires Undisturbed(ss[k := a], mid, b.generation) && mid[k].inUse && mid[k].generation == a.generation
    ensures mid[k] == a
  {
    hide NoEntries, Conserved, TokensHeard, SilentAfterStop, FoundComplete;
  }

  /** A search that does not is gone, whatever it was meant to become. */
  lemma GoneAnyway(ss: seq<Search>, k: nat, a: Search, x: Search, mid: seq<Search>, g: nat)
    requires k < |ss| && Undisturbed(ss[k := a], mid, g) && a.inUse
    requires !mid[k].inUse || mid[k].generation != a.generation
    ensures Undisturbed(ss[k := x], mid, g)
  {
    hide NoEntries;
    var from, to := ss[k := a], ss[k := x];
    forall m | 0 <= m < |ss|
      ensures SlotKept(to[m], mid[m], g)
    {
      assert SlotKept(from[m], mid[m], g);
    }
  }

  lemma StoredSame(ss: seq<Search>, k: nat, i: nat)
    requires k < |ss| && i < |ss[k].discovered|
    ensures ss[k := WithEntry(ss[k], i, ss[k].discovered[i])] == ss
  {
    assert ss[k].discovered[i := ss[k].discovered[i]] == ss[k].discovered;
    assert WithEntry(ss[k], i, ss[k].discovered[i]) == ss[k];
  }

  lemma UndisturbedStore(ss: seq<Search>, k: nat, s: Search, g: nat)
    requires k < |ss|
    ensures Undisturbed(ss[k := s], ss[k := s], g)
  {
    hide NoEntries;
  }

  /** A callback and then a change to slot k that is still the search it was. */
  lemma UndisturbedThen(ss: seq<Search>, k: nat, a: Search, mid: seq<Search>, b: Search, g: nat)
    requires k < |ss| && Undisturbed(ss[k := a], mid, g)
    ensures Undisturbed(ss[k := b], mid[k := b], g)
  {
    hide NoEntries;
    var from, to := ss[k := b], mid[k := b];
    forall m | 0 <= m < |ss|
      ensures SlotKept(from[m], to[m], g)
    {
      assert SlotKept(ss[k := a][m], mid[m], g);
    }
  }

  /** Two rounds of callbacks, with a change to slot k in between. */
  lemma UndisturbedTwice(ss: seq<Search>, k: nat, a: Search, mid: seq<Search>, b: Search, end: seq<Search>, g: nat,
                         g': nat)
    requires k < |ss| && Undisturbed(ss[k := a], mid, g) && Undisturbed(mid[k := b], end, g') && g <= g'
    ensures Undisturbed(ss[k := b], end, g)
  {
    hide NoEntries;
    forall m | 0 <= m < |ss|
      ensures SlotKept(ss[k := b][m], end[m], g)
    {
      assert SlotKept(ss[k := a][m], mid[m], g) && SlotKept(mid[k := b][m], end[m], g');
    }
  }

  /** A found notification: the guest now knows exactly what the entry holds. */
  lemma FoundAccounted(ss: seq<Search>, k: nat, i: nat, t: nat, delivered: bool, b: Books)
    requires Accounted(ss, b) && k < |ss| && ss[k].inUse && i < |ss[k].discovered|
    requires ss[k].discovered[i].token == Some(t) && ss[k].discovered[i].Complete() && !ss[k].discovered[i].notified
    ensures var e := ss[k].discovered[i];
            var log := b.log + [Found(ss[k].generation, t, e, delivered)];
            && Accounted(ss[k := WithEntry(ss[k], i, Told(e, e.token))], b.(log := log))
            && SameBut(b.log, log, t) && Guest(log, t) == Known(ReportOf(e))
  {
    hide Conserved, LogOk, Guest, Finder, KnownHeld;
    var e := ss[k].discovered[i];
    var event := Found(ss[k].generation, t, e, delivered);
    var s := WithEntry(ss[k], i, Told(e, e.token));
    assert EntryHeard(e, ss[k].generation, b.log);
    HolderOwns(ss, k, i, t, b);
    HeldAppend(b.owner, b.log, event);
    AppendSameBut(b.log, event);
    LogAppend(ss, b.generation, b.log, k, event);
    LogSlotKept(ss, b.generation, b.log + [event], k, s);
    HeardStep(ss, b.log, b.next, b.owner, b.loose, k, i, Told(e, e.token), b.log + [event], t, b.next);
    TokensKept(ss, ss[k := s], b.loose, b.owner, b.next);
  }

  /** A TXT update: the guest now knows the entry's strings. */
  lemma UpdateAccounted(ss: seq<Search>, k: nat, i: nat, t: nat, delivered: bool, b: Books)
    requires Accounted(ss, b) && k < |ss| && ss[k].inUse && i < |ss[k].discovered|
    requires ss[k].discovered[i].token == Some(t) && ss[k].discovered[i].notified
    ensures var e := ss[k].discovered[i];
            var log := b.log + [Updated(ss[k].generation, t, e.txt, delivered)];
            && Accounted(ss, b.(log := log)) && SameBut(b.log, log, t)
            && Guest(b.log, t).Known? && Guest(log, t) == Known(Guest(b.log, t).report.(txt := e.txt))
  {
    hide Conserved, LogOk, Guest, Finder, KnownHeld;
    var e := ss[k].discovered[i];
    var event := Updated(ss[k].generation, t, e.txt, delivered);
    assert EntryHeard(e, ss[k].generation, b.log);
    HeldAppend(b.owner, b.log, event);
    AppendSameBut(b.log, event);
    LogAppend(ss, b.generation, b.log, k, event);
    HeardStep(ss, b.log, b.next, b.owner, b.loose, k, i, e, b.log + [event], t, b.next);
    assert ss[k].discovered[i := e] == ss[k].discovered;
    assert ss[k := WithEntry(ss[k], i, e)] == ss;
  }

  /** A rotation before its callback: the entry has a new token nobody knows, and the old one is reported lost. */
  lemma RotationAccounted(ss: seq<Search>, k: nat, i: nat, t: nat, delivered: bool, b: Books)
    requires Accounted(ss, b) && k < |ss| && ss[k].inUse && i < |ss[k].discovered|
    requires ss[k].discovered[i].token == Some(t) && ss[k].discovered[i].notified
    ensures var e := ss[k].discovered[i].(token := Some(b.next), notified := false);
            var log := b.log + [Lost(ss[k].generation, t, delivered)];
            && Accounted(ss[k := WithEntry(ss[k], i, e)],
                         Books(b.loose.(inFlight := b.loose.inFlight + {t}),
                               b.owner[t := InFlight][b.next := InEntry(k, i)],
                               b.next + 1, b.generation, log, b.calls, b.made))
            && SameBut(b.log, log, t) && Guest(log, t) == Gone && t < b.next && t !in b.loose.inFlight
  {
    hide LogOk, Guest, Finder, NoDuplicates, LooseOwn, KnownHeld;
    var f := ss[k].discovered[i];
    var e, event := f.(token := Some(b.next), notified := false), Lost(ss[k].generation, t, delivered);
    var log := b.log + [event];
    assert Holds(ss, k, i, t);
    assert EntryHeard(f, ss[k].generation, b.log);
    HeldAppend(b.owner, b.log, event);
    AppendSameBut(b.log, event);
    LogAppend(ss, b.generation, b.log, k, event);
    HeardStep(ss, b.log, b.next, b.owner, b.loose, k, i, e, log, t, b.next + 1);
    var bare := WithEntry(ss[k], i, f.(token := None));
    var loose := b.loose.(inFlight := b.loose.inFlight + {t});
    TokenTaken(ss, ss[k := bare], b.loose, b.owner, b.next, k, i, t);
    var s := WithEntry(ss[k], i, e);
    LogSlotKept(ss, b.generation, log, k, s);
    TokenAllocated(ss[k := bare], ss[k := s], loose, b.owner[t := InFlight], b.next, k, i);
    OwnerMoved(b.owner, log, t, InFlight);
    OwnerMoved(b.owner[t := InFlight], log, b.next, InEntry(k, i));
  }

  lemma HolderOwns(ss: seq<Search>, k: nat, i: nat, t: nat, b: Books)
    requires Owned(ss, b) && k < |ss| && i < |ss[k].discovered| && ss[k].discovered[i].token == Some(t)
    ensures t in b.owner && b.owner[t] == InEntry(k, i) && t < b.next
  {
    hide LogOk, TokensHeard, LooseOwn;
    assert Holds(ss, k, i, t);
  }

  /** A search after a full dispatch: the same records in every entry that stays. */
  ghost predicate DispatchedSearch(s: Search, t: Search) {
    && |t.discovered| == |s.discovered| && t == s.(discovered := t.discovered)
    && forall i :: 0 <= i < |s.discovered| ==>
         t.discovered[i] == DispatchedEntry(s.discovered[i], KeptToken(s.discovered[i], t.discovered[i]))
  }

  /** Only a rotation gives an entry another token. */
  function KeptToken(e: Entry, f: Entry): Option<nat> {
    if Rotates(e) then f.token else e.token
  }

  predicate HoldsToken(s: Search, t: nat) {
    exists i :: 0 <= i < |s.discovered| && s.discovered[i].token == Some(t)
  }

  /** Nothing was said about tokens outside this search. */
  ghost predicate OnlyAbout(s: Search, next: nat, log: seq<Event>, log': seq<Event>) {
    forall t: nat :: t < next && !HoldsToken(s, t) ==> Guest(log', t) == Guest(log, t)
  }

  /** What a dispatch of e, giving f, has told: a replaced token is lost, and a complete entry known as it should be. */
  ghost predicate TurnTold(e: Entry, f: Entry, log: seq<Event>, log': seq<Event>) {
    && (Rotates(e) ==> e.token.Some? && Guest(log', e.token.value) == Gone)
    && (e.inUse && !e.remove && e.Complete() ==> GuestOf(log', f) == GuestAfter(e, GuestOf(log, e)))
  }

  ghost predicate AllTold(s: Search, t: Search, log: seq<Event>, log': seq<Event>) {
    && |t.discovered| == |s.discovered|
    && forall i :: 0 <= i < |s.discovered| ==> TurnTold(s.discovered[i], t.discovered[i], log, log')
  }

  /** The first i entries of search s have been dispatched, giving t; the guest has heard of these only. */
  ghost predicate Dispatching(s: Search, t: Search, i: nat, log: seq<Event>, log': seq<Event>) {
    && i <= |t.discovered| == |s.discovered| && t == s.(discovered := t.discovered)
    && (forall j :: 0 <= j < i ==>
          t.discovered[j] == DispatchedEntry(s.discovered[j], KeptToken(s.discovered[j], t.discovered[j])))
    && (forall j :: i <= j < |s.discovered| ==>
          t.discovered[j] == s.discovered[j] && GuestOf(log', s.discovered[j]) == GuestOf(log, s.discovered[j]))
    && (forall j :: 0 <= j < i ==> TurnTold(s.discovered[j], t.discovered[j], log, log'))
  }

  /** The tokens of a search are its own, and older than `next`. */
  ghost predicate OwnTokens(s: Search, next: nat) {
    && (forall j :: 0 <= j < |s.discovered| && s.discovered[j].token.Some? ==> s.discovered[j].token.value < next)
    && (forall i, j :: 0 <= i < j < |s.discovered| && s.discovered[i].token.Some? ==>
          s.discovered[i].token != s.discovered[j].token)
  }

  lemma DispatchBegins(ss: seq<Search>, k: nat, b: Books)
    requires Accounted(ss, b) && k < |ss|
    ensures Dispatching(ss[k], ss[k], 0, b.log, b.log) && OwnTokens(ss[k], b.next)
  {
    hide LooseOwn, LogOk, TokensHeard, Guest;
    var s := ss[k];
    forall j | 0 <= j < |s.discovered| && s.discovered[j].token.Some?
      ensures s.discovered[j].token.value < b.next
      ensures s.discovered[j].token.value in b.owner && b.owner[s.discovered[j].token.value] == InEntry(k, j)
    {
      assert Holds(ss, k, j, s.discovered[j].token.value);
    }
  }

  /** One more entry. */
  lemma DispatchTurn(s: Search, i: nat, log: seq<Event>, ss: seq<Search>, k: nat, b: Books, log': seq<Event>, next: nat)
    requires k < |ss| && Conserved(ss, b.loose, b.owner, b.next) && OwnTokens(s, next) && next <= b.next
    requires Dispatching(s, ss[k], i, log, b.log) && i < |s.discovered|
    requires EntryTold(s.discovered[i], b.next, b.log, log', false)
    ensures Dispatching(s, WithEntry(ss[k], i, DispatchedEntry(s.discovered[i], TokenAfter(s.discovered[i], b.next))),
                        i + 1, log, log')
  {
    hide Guest, Conserved, GuestAfter, Rotates;
    var t, e := ss[k], s.discovered[i];
    var f := DispatchedEntry(e, TokenAfter(e, b.next));
    DispatchKeepsToken(e, b.next);
    forall j | 0 <= j < |t.discovered| && j != i
      ensures GuestOf(log', t.discovered[j]) == GuestOf(b.log, t.discovered[j])
      ensures j < i ==> TurnTold(s.discovered[j], t.discovered[j], log, log')
    {
      NeighbourNotMeant(ss, k, i, j, b, log');
      if j < i && s.discovered[j].token.Some? { assert s.discovered[j].token != e.token; }
    }
    TurnIsTold(e, b.next, log, b.log, log');
  }

  lemma DispatchKeepsToken(e: Entry, next: nat)
    ensures var f := DispatchedEntry(e, TokenAfter(e, next)); f == DispatchedEntry(e, KeptToken(e, f))
  {
  }

  lemma TurnIsTold(e: Entry, next: nat, log: seq<Event>, mid: seq<Event>, log': seq<Event>)
    requires EntryTold(e, next, mid, log', false) && GuestOf(mid, e) == GuestOf(log, e)
    ensures TurnTold(e, DispatchedEntry(e, TokenAfter(e, next)), log, log')
  {
    hide Guest, GuestAfter, Rotates, TokenAfter, DispatchedEntry;
  }

  /** Nothing said about one entry is about another of the same search. */
  lemma NeighbourNotMeant(ss: seq<Search>, k: nat, i: nat, j: nat, b: Books, log': seq<Event>)
    requires k < |ss| && Conserved(ss, b.loose, b.owner, b.next)
    requires i < |ss[k].discovered| && j < |ss[k].discovered| && i != j
    requires EntryTold(ss[k].discovered[i], b.next, b.log, log', false)
    ensures GuestOf(log', ss[k].discovered[j]) == GuestOf(b.log, ss[k].discovered[j])
  {
    hide Guest, LooseOwn, Rotates, GuestAfter, DispatchedEntry;
    var o, u := ss[k].discovered[j].token, ss[k].discovered[i].token;
    if o.Some? {
      assert Holds(ss, k, j, o.value);
      if u.Some? { assert Holds(ss, k, i, u.value); }
    }
  }

  lemma NotHeldElsewhere(ss: seq<Search>, b: Books, k: nat, m: nat, j: nat, t: nat)
    requires Conserved(ss, b.loose, b.owner, b.next) && Holds(ss, m, j, t) && m != k && k < |ss|
    ensures !HoldsToken(ss[k], t) && t < b.next
  {
    hide LooseOwn;
    assert t in b.owner && b.owner[t] == InEntry(m, j);
    forall i | 0 <= i < |ss[k].discovered|
      ensures ss[k].discovered[i].token != Some(t)
    {
      assert !Holds(ss, k, i, t);
    }
  }

  /** Other searches are settled if they were: untouched entries keep their tokens, and nothing was said about those. */
  lemma OthersSettled(ss: seq<Search>, b: Books, k: nat, tt: seq<Search>, m: nat, g: nat, log': seq<Event>)
    requires Conserved(ss, b.loose, b.owner, b.next) && k < |ss| && m < |ss| == |tt| && m != k
    requires OnlyAbout(ss[k], b.next, b.log, log') && SlotKept(ss[m], tt[m], g)
    ensures AllSettled(ss[m], b.log) ==> AllSettled(tt[m], log')
    ensures tt[m] == ss[m] && AllSettled(tt[m], log') ==> AllSettled(ss[m], b.log)
  {
    hide Guest, LooseOwn, NoDuplicates, SameEndpoint;
    if tt[m] == ss[m] {
      forall j | 0 <= j < |ss[m].discovered|
        ensures GuestOf(log', ss[m].discovered[j]) == GuestOf(b.log, ss[m].discovered[j])
      {
        var o := ss[m].discovered[j].token;
        if o.Some? {
          assert Holds(ss, m, j, o.value);
          NotHeldElsewhere(ss, b, k, m, j, o.value);
        }
      }
    }
  }

  /** Another slot, over two rounds of callbacks. */
  lemma OthersKept(ss: seq<Search>, before: seq<Search>, k: nat, x: Search, tt: seq<Search>, g: nat, g': nat)
    requires k < |ss| == |before| && (forall m :: 0 <= m < |ss| && m != k ==> SlotKept(ss[m], before[m], g))
    requires Undisturbed(before[k := x], tt, g') && g <= g'
    ensures forall m :: 0 <= m < |ss| && m != k ==> SlotKept(ss[m], tt[m], g)
  {
    hide NoEntries;
    var from := before[k := x];
    forall m | 0 <= m < |ss| && m != k
      ensures SlotKept(ss[m], tt[m], g)
    {
      assert SlotKept(ss[m], before[m], g) && SlotKept(from[m], tt[m], g');
    }
  }

  /** A search that was stopped by a callback leaves nothing to dispatch. */
  lemma StoppedSlot(before: seq<Search>, k: nat, x: Search, tt: seq<Search>, g: nat, log: seq<Event>)
    requires k < |before| && Undisturbed(before[k := x], tt, g) && x.inUse
    requires !tt[k].inUse || tt[k].generation != x.generation
    ensures SlotKept(EmptySearch(), tt[k], g) && AllSettled(tt[k], log)
  {
    hide Guest;
    var from := before[k := x];
    assert SlotKept(from[k], tt[k], g);
  }

  lemma DispatchEnds(s: Search, t: Search, log: seq<Event>, log': seq<Event>)
    requires Dispatching(s, t, |s.discovered|, log, log')
    ensures DispatchedSearch(s, t) && AllTold(s, t, log, log')
    ensures AllHonest(s, log) ==> AllSettled(t, log')
  {
    hide Settled, DispatchedEntry, Guest, Honest, GuestAfter, GuestOf;
    if AllHonest(s, log) {
      forall i | 0 <= i < |t.discovered|
        ensures Settled(t.discovered[i], GuestOf(log', t.discovered[i]))
      {
        assert Honest(s.discovered[i], GuestOf(log, s.discovered[i]));
        assert TurnTold(s.discovered[i], t.discovered[i], log, log');
        DispatchSettles(s.discovered[i], GuestOf(log, s.discovered[i]), KeptToken(s.discovered[i], t.discovered[i]),
                        GuestOf(log', t.discovered[i]));
      }
    }
  }

  lemma OthersAllSettled(ss: seq<Search>, b: Books, k: nat, tt: seq<Search>, g: nat, log': seq<Event>)
    requires Accounted(ss, b) && k < |ss| == |tt|
    requires OnlyAbout(ss[k], b.next, b.log, log')
    requires forall m :: 0 <= m < |ss| && m != k ==> SlotKept(ss[m], tt[m], g)
    ensures OthersKeptInStep(k, ss, b.log, tt, log', g)
  {
    hide OnlyAbout, Conserved, AllSettled, SlotKept, LogOk, TokensHeard;
    forall m | 0 <= m < |ss| && m != k
      ensures AllSettled(ss[m], b.log) ==> AllSettled(tt[m], log')
      ensures tt[m] == ss[m] && AllSettled(tt[m], log') ==> AllSettled(ss[m], b.log)
    {
      OthersSettled(ss, b, k, tt, m, g, log');
    }
  }

  lemma EntryStillThere(s: Search, t: Search, i: nat, log: seq<Event>, log': seq<Event>)
    requires Dispatching(s, t, i, log, log') && i < |s.discovered|
    ensures t.discovered[i] == s.discovered[i]
  {
  }

  lemma OnlyAboutMore(s: Search, next: nat, log: seq<Event>, mid: seq<Event>, log': seq<Event>, e: Entry, next': nat,
                      stopped: bool)
    requires OnlyAbout(s, next, log, mid) && EntryTold(e, next', mid, log', stopped) && next <= next'
    requires e in s.discovered
    ensures OnlyAbout(s, next, log, log')
  {
    hide Guest, GuestAfter, Rotates, TokenAfter, DispatchedEntry, GuestOf;
  }

  /** The same search, if it is still there, holds what the packet makes of its caches. */
  ghost predicate PacketEffect(s: Search, t: Search, records: seq<Record>, now: u64) {
    SameSearch(s, t) ==> exists next: nat :: DispatchedSearch(PacketApplied(Cache(s, next), records, now), t)
  }

  ghost predicate ExpiryEffect(s: Search, t: Search, now: u64) {
    SameSearch(s, t) ==> DispatchedSearch(FollowedUpSearch(ExpiredSearch(s, now), now), t)
  }

  // ---------- Freshness ----------

  /** Every record still held expires later than `now`, and something other than an address is held. */
  predicate Fresh(e: Entry, now: u64) {
    e.inUse ==>
      && (e.hasPtr ==> now < e.ptrExpires) && (e.hasSrv ==> now < e.srvExpires)
      && (e.hasTxt ==> now < e.txtExpires) && (e.hasIpv4 ==> now < e.aExpires)
      && (e.hasPtr || e.hasSrv || e.hasTxt)
  }

  ghost predicate AllFresh(s: Search, now: u64) {
    && (forall i :: 0 <= i < |s.discovered| ==> Fresh(s.discovered[i], now))
    && (forall j :: 0 <= j < |s.addresses| && s.addresses[j].inUse ==> now < s.addresses[j].expires)
  }

  /** Dispatching an expired search leaves only fresh records, whatever the callbacks did. */
  lemma ExpiryLeavesFresh(s: Search, t: Search, at: u64, clock: u64)
    requires CacheOk(s, clock) && DispatchedSearch(FollowedUpSearch(ExpiredSearch(s, at), at), t)
    ensures AllFresh(t, at)
  {
    hide AddressAgreement, Distinct;
    forall i | 0 <= i < |t.discovered|
      ensures Fresh(t.discovered[i], at)
    {
      assert EntrySane(s.discovered[i]);
      if s.discovered[i].inUse { ExpiryComplete(s.discovered[i], at); }
    }
    forall j | 0 <= j < |t.addresses| && t.addresses[j].inUse
      ensures at < t.addresses[j].expires
    {
      assert AddressSane(s.addresses[j]);
    }
  }

  /** What callbacks do to a slot cannot make its records stale, or its search the one it was before. */
  lemma FreshKept(s: Search, t: Search, g: nat, at: u64)
    requires AllFresh(s, at) && SlotKept(s, t, g)
    ensures AllFresh(t, at)
  {
  }

  lemma EffectKept(s: Search, t: Search, t': Search, g: nat, records: seq<Record>, at: u64)
    requires SlotKept(t, t', g) && (s.inUse ==> s.generation <= g)
    ensures PacketEffect(s, t, records, at) ==> PacketEffect(s, t', records, at)
    ensures ExpiryEffect(s, t, at) ==> ExpiryEffect(s, t', at)
  {
    hide NoEntries, DispatchedSearch;
  }

  /** Two rounds of callbacks on one slot. */
  lemma SlotKeptTwice(s: Search, t: Search, u: Search, g: nat, g': nat)
    requires SlotKept(s, t, g) && SlotKept(t, u, g') && g <= g'
    ensures SlotKept(s, u, g)
  {
  }

  lemma GenerationBound(ss: seq<Search>, b: Books, k: nat)
    requires Accounted(ss, b) && k < |ss|
    ensures ss[k].inUse ==> ss[k].generation <= b.generation
  {
    hide Conserved, TokensHeard;
  }

  /** An empty slot has nothing stale and nothing unsettled. */
  lemma EmptySettled(t: Search, g: nat, log: seq<Event>, at: u64)
    requires SlotKept(EmptySearch(), t, g)
    ensures AllSettled(t, log) && AllFresh(t, at)
  {
    hide Guest;
  }

  /** What one search's turn may do to the others: callbacks stop or start them, but none falls out of step. */
  ghost predicate OthersKeptInStep(k: nat, ss: seq<Search>, log: seq<Event>, tt: seq<Search>, log': seq<Event>, g: nat)
  {
    && |tt| == |ss|
    && (forall m :: 0 <= m < |ss| && m != k ==> SlotKept(ss[m], tt[m], g))
    && (forall m :: 0 <= m < |ss| && m != k && AllSettled(ss[m], log) ==> AllSettled(tt[m], log'))
    && (forall m :: 0 <= m < |ss| && m != k && tt[m] == ss[m] && AllSettled(tt[m], log') ==> AllSettled(ss[m], log))
  }

  lemma OthersUnaffected(k: nat, ss: seq<Search>, s: Search, log: seq<Event>, tt: seq<Search>, log': seq<Event>, g: nat)
    requires k < |ss| && OthersKeptInStep(k, ss[k := s], log, tt, log', g)
    ensures OthersKeptInStep(k, ss, log, tt, log', g)
  {
    hide AllSettled, SlotKept;
    var from := ss[k := s];
    forall m | 0 <= m < |ss| && m != k
      ensures SlotKept(ss[m], tt[m], g) && (AllSettled(ss[m], log) ==> AllSettled(tt[m], log'))
      ensures tt[m] == ss[m] && AllSettled(tt[m], log') ==> AllSettled(ss[m], log)
    {
      assert from[m] == ss[m];
    }
  }

  lemma SoundSearch(ss: seq<Search>, b: Books, clock: u64, k: nat)
    requires Sound(ss, b, clock) && k < MAX_SEARCHES
    ensures |ss| == MAX_SEARCHES && SearchOk(ss[k], clock) && CacheOk(ss[k], clock)
    ensures |ss[k].discovered| == MAX_DISCOVERED
  {
    hide Accounted;
  }

  lemma SoundSlots(ss: seq<Search>, b: Books, clock: u64)
    requires Sound(ss, b, clock)
    ensures |ss| == MAX_SEARCHES
  {
  }

  lemma SoundParts(ss: seq<Search>, b: Books, clock: u64)
    requires Sound(ss, b, clock)
    ensures SearchesOk(ss, clock) && Accounted(ss, b)
  {
  }

  lemma SoundAgain(ss: seq<Search>, b: Books, clock: u64)
    requires SearchesOk(ss, clock) && Accounted(ss, b)
    ensures Sound(ss, b, clock)
  {
  }

  lemma LaterSound(ss: seq<Search>, clock: u64, later: u64)
    requires SearchesOk(ss, clock) && clock <= later
    ensures SearchesOk(ss, later)
  {
    hide CacheOk;
    forall k | 0 <= k < |ss|
      ensures SearchOk(ss[k], later)
    {
      LaterKeeps(ss[k], clock, later);
    }
  }

  /** The records of a packet as the searches see them: only responses that parse are looked at. */
  function ResponseRecords(data: seq<byte>): Option<seq<Record>> {
    match ParseAll(data)
    case Failure(_) => None
    case Success(r) => if r.0.header.flags >= 0x8000 then Some(Bounded(r.0).records) else None
  }

  predicate Harmless(data: seq<byte>) {
    ResponseRecords(data).Some? ==> NoRevival(ResponseRecords(data).value)
  }

  /** In a sound state the callbacks have told a proper life of every token. */
  lemma SoundLifecycle(ss: seq<Search>, b: Books, clock: u64, t: nat)
    requires Sound(ss, b, clock)
    ensures Lifecycle(EventsOf(b.log, t))
    ensures t >= b.next ==> EventsOf(b.log, t) == []
  {
    hide Guest, Conserved, LogOk, SearchesOk;
    UnconfusedLifecycle(b.log, t);
  }

  lemma SlotSame(s: Search, g: nat)
    ensures SlotKept(s, s, g)
  {
  }

  lemma IdleEffect(s: Search, t: Search, records: seq<Record>, at: u64)
    requires !t.inUse
    ensures PacketEffect(s, t, records, at) && ExpiryEffect(s, t, at)
  {
  }

  /** The effect on a slot that callbacks may have changed before its turn. */
  lemma EffectSince(s: Search, before: Search, t: Search, records: seq<Record>, at: u64, g: nat, g': nat)
    requires SlotKept(s, before, g) && (s.inUse ==> s.generation <= g) && g <= g'
    requires SameSearch(before, t) || SlotKept(EmptySearch(), t, g')
    ensures PacketEffect(before, t, records, at) ==> PacketEffect(s, t, records, at)
    ensures ExpiryEffect(before, t, at) ==> ExpiryEffect(s, t, at)
  {
    hide NoEntries, DispatchedSearch;
  }

  /** The slots after a pass over the first k of them: those hold what the pass makes of their searches, the others
      were at most stopped or started by callbacks. */
  ghost predicate PassedPacket(ss: seq<Search>, tt: seq<Search>, k: nat, records: seq<Record>, at: u64, g: nat) {
    && |ss| == |tt| && (forall m :: 0 <= m < |ss| && ss[m].inUse ==> ss[m].generation <= g)
    && (forall m :: 0 <= m < k && m < |ss| ==> PacketEffect(ss[m], tt[m], records, at))
    && (forall m :: k <= m < |ss| ==> SlotKept(ss[m], tt[m], g))
  }

  ghost predicate PassedExpiry(ss: seq<Search>, tt: seq<Search>, k: nat, at: u64, g: nat) {
    && |ss| == |tt| && (forall m :: 0 <= m < |ss| && ss[m].inUse ==> ss[m].generation <= g)
    && (forall m :: 0 <= m < k && m < |ss| ==> ExpiryEffect(ss[m], tt[m], at) && AllFresh(tt[m], at))
    && (forall m :: k <= m < |ss| ==> SlotKept(ss[m], tt[m], g))
  }

  lemma PassBegins(ss: seq<Search>, b: Books, records: seq<Record>, at: u64)
    requires Accounted(ss, b)
    ensures PassedPacket(ss, ss, 0, records, at, b.generation) && PassedExpiry(ss, ss, 0, at, b.generation)
  {
    hide Accounted, SlotKept, PacketEffect, ExpiryEffect, AllFresh;
    forall m | 0 <= m < |ss|
      ensures SlotKept(ss[m], ss[m], b.generation) && (ss[m].inUse ==> ss[m].generation <= b.generation)
    {
      SlotSame(ss[m], b.generation);
      GenerationBound(ss, b, m);
    }
  }

  /** After its turn a slot has the search it had, or a newer one, or none. */
  ghost predicate SlotTurned(s: Search, t: Search, g: nat) {
    !t.inUse || SameSearch(s, t) || SlotKept(EmptySearch(), t, g)
  }

  lemma PacketTurn(ss: seq<Search>, before: seq<Search>, tt: seq<Search>, k: nat, records: seq<Record>, at: u64, g: nat,
                   g': nat)
    requires PassedPacket(ss, before, k, records, at, g) && k < |ss| == |tt| && g <= g'
    requires forall m :: 0 <= m < |ss| && m != k ==> SlotKept(before[m], tt[m], g')
    requires SlotTurned(before[k], tt[k], g')
    requires PacketEffect(before[k], tt[k], records, at)
    ensures PassedPacket(ss, tt, k + 1, records, at, g)
  {
    hide SlotKept, PacketEffect, ExpiryEffect;
    if !tt[k].inUse {
      IdleEffect(ss[k], tt[k], records, at);
    } else {
      EffectSince(ss[k], before[k], tt[k], records, at, g, g');
    }
    forall m | 0 <= m < |ss| && m != k
      ensures m < k ==> PacketEffect(ss[m], tt[m], records, at)
      ensures m > k ==> SlotKept(ss[m], tt[m], g)
    {
      EffectKept(ss[m], before[m], tt[m], g', records, at);
      if m > k { SlotKeptTwice(ss[m], before[m], tt[m], g, g'); }
    }
  }

  lemma ExpiryTurn(ss: seq<Search>, before: seq<Search>, tt: seq<Search>, k: nat, at: u64, g: nat, g': nat)
    requires PassedExpiry(ss, before, k, at, g) && k < |ss| == |tt| && g <= g'
    requires forall m :: 0 <= m < |ss| && m != k ==> SlotKept(before[m], tt[m], g')
    requires SlotTurned(before[k], tt[k], g')
    requires ExpiryEffect(before[k], tt[k], at) && AllFresh(tt[k], at)
    ensures PassedExpiry(ss, tt, k + 1, at, g)
  {
    hide SlotKept, PacketEffect, ExpiryEffect, AllFresh;
    if !tt[k].inUse {
      IdleEffect(ss[k], tt[k], [], at);
    } else {
      EffectSince(ss[k], before[k], tt[k], [], at, g, g');
    }
    forall m | 0 <= m < |ss| && m != k
      ensures m < k ==> ExpiryEffect(ss[m], tt[m], at) && AllFresh(tt[m], at)
      ensures m > k ==> SlotKept(ss[m], tt[m], g)
    {
      EffectKept(ss[m], before[m], tt[m], g', [], at);
      if m < k { FreshKept(before[m], tt[m], g', at); } else { SlotKeptTwice(ss[m], before[m], tt[m], g, g'); }
    }
  }

  lemma PassEnds(ss: seq<Search>, tt: seq<Search>, records: seq<Record>, at: u64, g: nat)
    ensures PassedPacket(ss, tt, |ss|, records, at, g) ==>
      forall m :: 0 <= m < |ss| ==> PacketEffect(ss[m], tt[m], records, at)
    ensures PassedExpiry(ss, tt, |ss|, at, g) ==>
      forall m :: 0 <= m < |ss| ==> ExpiryEffect(ss[m], tt[m], at) && AllFresh(tt[m], at)
  {
    hide PacketEffect, ExpiryEffect, AllFresh, SlotKept;
  }
}
