/** What a guest hears: through which of its callbacks, and what of a single record. */
module ZeroconfReports {
  import opened WireNames
  import opened WireParse
  import opened ZeroconfApply
  import opened ZeroconfCache
  import opened ZeroconfEntry
  import opened ZeroconfGuest
  import opened ZeroconfSteps
  import opened ZeroconfScene
  import opened ZeroconfRuns
  import opened ZeroconfTimes

  // ---------- Which callback ----------

  /** An event is delivered exactly if its search was started with a callback for events of its kind. */
  predicate ByTerms(s: Search, event: Event) {
    match event
    case Found(_, _, _, delivered) => delivered == s.found
    case Updated(_, _, _, delivered) => delivered == s.update
    case Lost(_, _, delivered) => delivered == s.lost
    case Stopped(_) => true
  }

  predicate About(s: Search, event: Event) {
    s.inUse && event.generation == s.generation
  }

  /** Every event so far about a running search was. */
  predicate AllByTerms(x: Scene) {
    && (forall k :: 0 <= k < |x.searches| && x.searches[k].inUse ==> x.searches[k].generation <= x.generation)
    && (forall j :: 0 <= j < |x.log| ==> x.log[j].generation <= x.generation)
    && (forall k, j :: 0 <= k < |x.searches| && 0 <= j < |x.log| && About(x.searches[k], x.log[j]) ==>
          ByTerms(x.searches[k], x.log[j]))
  }

  /** The same search under the same terms. */
  predicate SameTerms(s: Search, t: Search) {
    && t.inUse == s.inUse && t.generation == s.generation
    && t.found == s.found && t.update == s.update && t.lost == s.lost
  }

  /** Running searches are told apart by their generations. */
  predicate OneEach(x: Scene) {
    forall k, m :: 0 <= k < m < |x.searches| && x.searches[k].inUse && x.searches[m].inUse ==>
      x.searches[k].generation != x.searches[m].generation
  }

  predicate Ordered(x: Scene) {
    AllByTerms(x) && OneEach(x)
  }

  lemma TermsKept(x: Scene, k: nat, t: Search, next: nat)
    requires Ordered(x) && k < |x.searches| && SameTerms(x.searches[k], t)
    ensures Ordered(x.With(k, t).(next := next))
  {
  }

  lemma PerformedByTerms(x: Scene, op: GuestOp)
    requires Ordered(x)
    ensures Ordered(Performed(x, op))
  {
    hide EmptySearch;
    if op.StartOp? { AttemptIs(op, x.generation + 1); }
  }

  /** A search that is started: its terms, and the first time it asks again. */
  lemma AttemptIs(op: GuestOp, generation: nat)
    requires op.StartOp?
    ensures var s := Attempt(op, generation);
            s.inUse ==> s.generation == generation && s.found == op.found && s.update == op.update && s.lost == op.lost
                        && s.nextQuery == op.now + 2000
  {
  }

  lemma {:induction false} PerformedAllByTerms(x: Scene, ops: seq<GuestOp>)
    requires Ordered(x)
    ensures Ordered(PerformedAll(x, ops))
  {
    hide Performed, Ordered;
    if ops == [] {
    } else {
      PerformedAllByTerms(x, ops[..|ops| - 1]);
      PerformedByTerms(PerformedAll(x, ops[..|ops| - 1]), ops[|ops| - 1]);
    }
  }

  /** What callbacks call leaves a search that keeps running alone. */
  lemma {:induction false} StillRuns(x: Scene, ops: seq<GuestOp>, k: nat, generation: nat)
    requires generation <= x.generation && PerformedAll(x, ops).Runs(k, generation)
    ensures x.Runs(k, generation) && PerformedAll(x, ops).searches[k] == x.searches[k]
  {
    hide Attempt;
    if ops == [] {
    } else {
      var y, op := PerformedAll(x, ops[..|ops| - 1]), ops[|ops| - 1];
      if op.StartOp? { AttemptIs(op, y.generation + 1); }
      StillRuns(x, ops[..|ops| - 1], k, generation);
    }
  }

  lemma NotifiedByTerms(x: Scene, k: nat, event: Event, made: seq<seq<GuestOp>>)
    requires Ordered(x) && k < |x.searches| && x.searches[k].inUse && event.generation == x.searches[k].generation
    requires ByTerms(x.searches[k], event)
    ensures var y := Notified(x, event, made);
            Ordered(y) && (y.Runs(k, event.generation) ==> y.searches[k] == x.searches[k])
  {
    hide PerformedAll, Delivered;
    var y := x.(log := x.log + [event]);
    assert Ordered(y);
    var ops := CallsAt(made, |Delivered(x.log)|);
    PerformedAllByTerms(y, ops);
    if PerformedAll(y, ops).Runs(k, event.generation) { StillRuns(y, ops, k, event.generation); }
  }

  lemma {:induction false} ToldByTerms(x: Scene, k: nat, generation: nat, events: seq<Event>, made: seq<seq<GuestOp>>)
    requires Ordered(x) && (forall i :: 0 <= i < |events| ==> events[i].generation == generation)
    requires x.Runs(k, generation) ==> forall i :: 0 <= i < |events| ==> ByTerms(x.searches[k], events[i])
    ensures Ordered(TellAll(x, k, generation, events, made))
    decreases |events|
  {
    hide Notified, Ordered, ByTerms;
    if events == [] || !x.Runs(k, generation) {
    } else {
      NotifiedByTerms(x, k, events[0], made);
      ToldByTerms(Notified(x, events[0], made), k, generation, events[1..], made);
    }
  }

  lemma TellsByTerms(s: Search, e: Entry, next: nat)
    ensures forall i :: 0 <= i < |Tells(s, e, next)| ==>
              Tells(s, e, next)[i].generation == s.generation && ByTerms(s, Tells(s, e, next)[i])
  {
  }

  lemma EntryByTerms(x: Scene, k: nat, i: nat, made: seq<seq<GuestOp>>)
    requires Ordered(x) && k < |x.searches| && i < |x.searches[k].discovered|
    ensures Ordered(EntryDispatched(x, k, i, made))
  {
    hide TellAll, Tells, DispatchedEntry, Ordered, ByTerms, Rotates;
    var s, e := x.searches[k], x.searches[k].discovered[i];
    var t := WithEntry(s, i, DispatchedEntry(e, TokenAfter(e, x.next)));
    TellsByTerms(s, e, x.next);
    TermsKept(x, k, t, x.next + One(Rotates(e)));
    SameByTerms(s, t);
    ToldByTerms(x.With(k, t).(next := x.next + One(Rotates(e))), k, s.generation, Tells(s, e, x.next), made);
  }

  lemma SameByTerms(s: Search, t: Search)
    requires SameTerms(s, t)
    ensures forall event :: ByTerms(t, event) <==> ByTerms(s, event)
  {
  }

  lemma {:induction false} DispatchedByTerms(x: Scene, k: nat, generation: nat, i: nat, made: seq<seq<GuestOp>>)
    requires Ordered(x)
    ensures Ordered(DispatchedFrom(x, k, generation, i, made))
    decreases MAX_DISCOVERED - i
  {
    hide EntryDispatched, Ordered;
    if !x.Runs(k, generation) || i >= |x.searches[k].discovered| || i >= MAX_DISCOVERED {
    } else {
      EntryByTerms(x, k, i, made);
      DispatchedByTerms(EntryDispatched(x, k, i, made), k, generation, i + 1, made);
    }
  }

  lemma {:induction false} PhasesKeepTerms(c: Cache, records: seq<Record>, now: u64)
    ensures SameTerms(c.search, FoldPtr(c, records, now).search)
    ensures SameTerms(c.search, FoldService(c, records, now).search)
    ensures SameTerms(c.search, FoldAddress(c.search, records, now))
    decreases |records|
  {
    hide StepPtr, StepService, StepAddress;
    if records == [] {
    } else {
      StepsKeepTerms(c, records[0], now);
      PhasesKeepTerms(StepPtr(c, records[0], now), records[1..], now);
      PhasesKeepTerms(StepService(c, records[0], now), records[1..], now);
      PhasesKeepTerms(Cache(StepAddress(c.search, records[0], now), 0), records[1..], now);
    }
  }

  lemma StepsKeepTerms(c: Cache, r: Record, now: u64)
    ensures SameTerms(c.search, StepPtr(c, r, now).search)
    ensures SameTerms(c.search, StepService(c, r, now).search)
    ensures SameTerms(c.search, StepAddress(c.search, r, now))
  {
    hide NameMatches, StepPtr, StepService, AllocateAddress, FindAddress, Expiry;
    PtrFrame(c, r, now);
    ServiceFrame(c, r, now);
  }

  lemma ServiceFrame(c: Cache, r: Record, now: u64)
    ensures SameFrame(c.search, StepService(c, r, now).search)
  {
    hide InstanceName, FindEntry, AllocateEntry, AcceptedTxt, SrvApplied, TxtAnnounced, ServiceWithdrawn, Expiry;
    AllocationFrame(c, r.owner);
  }

  lemma PacketKeepsTerms(c: Cache, records: seq<Record>, now: u64)
    ensures SameTerms(c.search, PacketApplied(c, records, now))
  {
    hide FoldPtr, FoldService, FoldAddress;
    var p := FoldPtr(c, records, now);
    var v := FoldService(p, records, now);
    PhasesKeepTerms(c, records, now);
    PhasesKeepTerms(p, records, now);
    PhasesKeepTerms(v, records, now);
  }

  lemma ExpiryKeepsTerms(s: Search, now: u64)
    ensures SameTerms(s, FollowedUpSearch(ExpiredSearch(s, now), now))
  {
  }

  lemma {:induction false} PacketByTerms(x: Scene, k: nat, records: seq<Record>, now: u64, made: seq<seq<GuestOp>>)
    requires Ordered(x)
    ensures Ordered(PacketFrom(x, k, records, now, made))
    decreases |x.searches| - k
  {
    hide Ordered, DispatchedFrom, PacketApplied, PacketTokens, SameTerms;
    if k >= |x.searches| {
    } else if x.searches[k].inUse {
      var s, c := x.searches[k], Cache(x.searches[k], x.next);
      PacketKeepsTerms(c, records, now);
      TermsKept(x, k, PacketApplied(c, records, now), PacketTokens(c, records, now));
      DispatchedByTerms(x.With(k, PacketApplied(c, records, now)).(next := PacketTokens(c, records, now)), k,
                        s.generation, 0, made);
      PacketByTerms(PacketOn(x, k, records, now, made), k + 1, records, now, made);
    } else {
      PacketByTerms(x, k + 1, records, now, made);
    }
  }

  lemma {:induction false} ExpiryByTerms(x: Scene, k: nat, now: u64, made: seq<seq<GuestOp>>)
    requires Ordered(x)
    ensures Ordered(ExpiryFrom(x, k, now, made))
    decreases |x.searches| - k
  {
    hide Ordered, DispatchedFrom, FollowedUpSearch, ExpiredSearch, SameTerms;
    if k >= |x.searches| {
    } else if x.searches[k].inUse {
      var s := x.searches[k];
      var t := FollowedUpSearch(ExpiredSearch(s, now), now);
      ExpiryKeepsTerms(s, now);
      TermsKept(x, k, t, x.next);
      DispatchedByTerms(x.With(k, t), k, s.generation, 0, made);
      ExpiryByTerms(ExpiryOn(x, k, now, made), k + 1, now, made);
    } else {
      ExpiryByTerms(x, k + 1, now, made);
    }
  }

  // ---------- Over a run ----------

  lemma PacketDoneByTerms(x: Moment, data: seq<byte>, now: u64, y: Moment)
    requires Ordered(x.View()) && PacketDone(x, data, now, y)
    ensures Ordered(y.View())
  {
    hide Ordered, PacketFrom, ResponseRecords, AtRest, InStep, Grown, NoneDeceived, PacketEffect, Harmless;
    if ResponseRecords(data).Some? { PacketByTerms(x.View(), 0, ResponseRecords(data).value, now, y.books.made); }
  }

  lemma {:induction false} ReceivedByTerms(x: Moment, received: seq<(seq<byte>, u64)>, n: nat, trail: seq<Moment>,
                                           m: nat)
    requires Ordered(x.View()) && Received(x, received, n, trail) && m <= n
    ensures Ordered(trail[m].View())
    decreases m
  {
    hide Ordered, PacketDone;
    if m == 0 {
    } else {
      ReceivedByTerms(x, received, n, trail, m - 1);
      PacketDoneByTerms(trail[m - 1], received[m - 1].0, received[m - 1].1, trail[m]);
    }
  }

  lemma PumpDoneByTerms(x: Moment, received: seq<(seq<byte>, u64)>, now: u64, queries: seq<Query>, y: Moment)
    requires Ordered(x.View()) && PumpDone(x, received, now, queries, y)
    ensures Ordered(y.View())
  {
    hide PacketDone, ExpiryDone, Takes, Requeries, Ordered;
    var n: nat, trail: seq<Moment>, expired: Moment :|
      && Takes(received, n) && Received(x, received, n, trail) && ExpiryDone(trail[n], now, expired)
      && y == expired.(searches := RequeriedAll(expired.searches, now))
      && queries == Requeries(expired.searches, now);
    ReceivedByTerms(x, received, n, trail, n);
    ExpiryDoneByTerms(trail[n], now, expired);
    RequeriedByTerms(expired, now);
  }

  lemma ExpiryDoneByTerms(x: Moment, now: u64, y: Moment)
    requires Ordered(x.View()) && ExpiryDone(x, now, y)
    ensures Ordered(y.View())
  {
    hide Ordered, ExpiryFrom, AtRest, InStep, Grown, ExpiryEffect, AllFresh;
    ExpiryByTerms(x.View(), 0, now, y.books.made);
  }

  lemma RequeriedByTerms(x: Moment, now: u64)
    requires Ordered(x.View())
    ensures Ordered(x.(searches := RequeriedAll(x.searches, now)).View())
  {
  }

  /** Over any run, whatever the guest's callbacks call: every event about a search that is still running was delivered
      exactly if the guest gave a callback for events of this kind when it started the search. */
  lemma {:induction false} RunByTerms(actions: seq<Action>, moments: seq<Moment>, n: nat)
    requires RunDone(actions, moments) && Ordered(moments[0].View()) && n <= |actions|
    ensures Ordered(moments[n].View())
    decreases n
  {
    hide Ordered, PacketDone, PumpDone, CallDone;
    if n == 0 {
    } else {
      RunByTerms(actions, moments, n - 1);
      var x, y := moments[n - 1], moments[n];
      assert ActionDone(x, actions[n - 1], y);
      match actions[n - 1] {
        case PacketAction(data, now) => PacketDoneByTerms(x, data, now, y);
        case PumpAction(received, now) =>
          var queries :| PumpDone(x, received, now, queries, y);
          PumpDoneByTerms(x, received, now, queries, y);
        case CallAction(op) =>
          CallView(x, op, y);
          PerformedByTerms(x.View(), op);
      }
    }
  }

  lemma CallView(x: Moment, op: GuestOp, y: Moment)
    requires CallDone(x, op, y)
    ensures y.View() == Performed(x.View(), op)
  {
  }

  /** It starts out so. */
  lemma NothingHeardYet(x: Scene)
    requires x.log == [] && forall k :: 0 <= k < |x.searches| ==> !x.searches[k].inUse
    ensures Ordered(x)
  {
  }
}
