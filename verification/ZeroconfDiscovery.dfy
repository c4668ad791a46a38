/** The running discovery: searches, their caches, the callbacks and the service tokens. */
module ZeroconfDiscovery {
  import opened Options
  import opened WireNames
  import opened WireParse
  import opened ZeroconfCache
  import opened ZeroconfGuest
  import opened ZeroconfTokens
  import opened ZeroconfSteps
  import opened ZeroconfScene
  import opened ZeroconfRevival
  import opened ZeroconfText
  import opened ZeroconfApply
  import opened ZeroconfRuns

  class Discovery {
    var searches: seq<Search>
    var generation: nat
    var nextToken: nat
    var retired: seq<nat>
    var depth: nat
    var pumping: bool
    ghost var inFlight: set<nat>
    ghost var frees: seq<nat>
    ghost var owner: map<nat, Owner>
    ghost var log: seq<Event>
    ghost var calls: seq<Event>
    /** The calls of every callback, in the order of `calls`. */
    ghost var made: seq<seq<GuestOp>>
    ghost var clock: u64

    ghost function Accounts(): Books
      reads this
    {
      Books(Loose(inFlight, retired, frees), owner, nextToken, generation, log, calls, made)
    }

    ghost predicate AllSound()
      reads this
    {
      Sound(searches, Accounts(), clock)
    }

    /** Retired tokens wait only while a callback is running. */
    ghost predicate NoneWaiting()
      reads this
    {
      depth == 0 ==> retired == []
    }

    /** And the callbacks that were invoked are those the log says. */
    ghost predicate Valid()
      reads this
    {
      AllSound() && NoneWaiting() && calls == Delivered(log) && |made| == |calls|
    }

    /** What callbacks can see or change. */
    ghost function View(): Scene
      reads this`searches, this`generation, this`nextToken, this`log
    {
      Scene(searches, generation, nextToken, log)
    }

    constructor ()
      ensures Valid() && depth == 0 && !pumping && inFlight == {} && log == [] && frees == [] && made == []
      ensures forall k :: 0 <= k < |searches| ==> !searches[k].inUse
      ensures InStep(Now())
    {
      searches := seq(MAX_SEARCHES, _ => EmptySearch());
      generation, nextToken, retired, depth, pumping := 0, 1, [], 0, false;
      inFlight, frees, owner, log, calls, made, clock := {}, [], map[], [], [], [], 0;
    }

    ghost function Now(): Moment
      reads this
    {
      Moment(searches, Accounts())
    }

    // ---------- Tokens ----------

    /** retire_service_id for a token that was already taken: freed at once, or kept until the callbacks are done. */
    method RetireToken(t: nat)
      requires Owned(searches, Accounts()) && t in inFlight
      modifies this`retired, this`inFlight, this`frees, this`owner
      ensures Owned(searches, Accounts()) && inFlight == old(inFlight) - {t}
      ensures depth == 0 ==> retired == old(retired) && frees == old(frees) + [t]
      ensures depth > 0 ==> retired == [t] + old(retired) && frees == old(frees)
      ensures t in old(owner) && old(owner)[t].InFlight? && owner == old(owner)[t := NewOwner()]
    {
      hide LogOk, TokensHeard, EntriesOwn;
      if depth == 0 {
        TokenFreed(searches, Loose(inFlight, retired, frees), owner, nextToken, t);
        inFlight, frees, owner := inFlight - {t}, frees + [t], owner[t := Freed];
        return;
      }
      TokenRetired(searches, Loose(inFlight, retired, frees), owner, nextToken, t);
      retired := [t] + retired;
      inFlight, owner := inFlight - {t}, owner[t := Retired];
    }

    /** Who owns a token that is given up. */
    ghost function NewOwner(): Owner
      reads this`depth
    {
      if depth == 0 then Freed else Retired
    }

    /** retire_service_id on an entry's field. */
    method RetireFrom(k: nat, i: nat)
      requires Owned(searches, Accounts()) && k < |searches| && i < |searches[k].discovered|
      modifies this`searches, this`retired, this`inFlight, this`frees, this`owner
      ensures Owned(searches, Accounts()) && inFlight == old(inFlight)
      ensures var e := old(searches[k].discovered[i]);
              && searches == old(searches)[k := WithEntry(old(searches[k]), i, e.(token := None))]
              && owner == (if e.token.Some? then old(owner)[e.token.value := NewOwner()] else old(owner))
              && frees == old(frees) + (if depth == 0 && e.token.Some? then [e.token.value] else [])
              && retired == (if depth > 0 && e.token.Some? then [e.token.value] else []) + old(retired)
    {
      hide Owned;
      var e := searches[k].discovered[i];
      if e.token.None? {
        assert e == e.(token := None);
        assert WithEntry(searches[k], i, e) == searches[k];
        return;
      }
      var t := e.token.value;
      TokenLeaves(searches, k, i, t, Accounts());
      searches := searches[k := WithEntry(searches[k], i, e.(token := None))];
      inFlight, owner := inFlight + {t}, owner[t := InFlight];
      RetireToken(t);
    }

    /** flush_retired_service_ids */
    method FlushRetired()
      requires AllSound()
      modifies this`retired, this`frees, this`owner
      ensures AllSound() && Grown(old(Accounts()), Accounts())
      ensures depth == 0 ==> retired == [] && frees == old(frees) + old(retired)
      ensures depth > 0 ==> retired == old(retired) && frees == old(frees)
    {
      hide LogOk, TokensHeard, EntriesOwn, SearchesOk, KnownHeld;
      if depth > 0 {
        return;
      }
      while retired != []
        invariant AllSound() && frees + retired == old(frees) + old(retired) && old(frees) <= frees
        decreases |retired|
      {
        RetiredFreed(searches, Loose(inFlight, retired, frees), owner, nextToken);
        var t := retired[0];
        OwnerMoved(owner, log, t, Freed);
        retired := retired[1..];
        frees, owner := frees + [t], owner[t := Freed];
      }
    }

    // ---------- Starting and stopping ----------

    /** The loop of clear_search. */
    method RetireAll(k: nat, ghost cleared: seq<Event>)
      requires Owned(searches, Accounts()) && KnownHeld(owner, cleared) && k < |searches|
      requires |searches| == MAX_SEARCHES && |searches[k].discovered| == MAX_DISCOVERED
      requires searches[k].inUse ==> cleared == log + [Stopped(searches[k].generation)]
      requires !searches[k].inUse ==> forall j :: 0 <= j < MAX_DISCOVERED ==> searches[k].discovered[j].token.None?
      modifies this`searches, this`retired, this`inFlight, this`frees, this`owner
      ensures Owned(searches, Accounts()) && KnownHeld(owner, cleared) && inFlight == old(inFlight)
      ensures |searches| == MAX_SEARCHES && searches == old(searches)[k := searches[k]] && old(frees) <= frees
      ensures searches[k].inUse == old(searches[k].inUse) && searches[k].generation == old(searches[k].generation)
      ensures |searches[k].discovered| == MAX_DISCOVERED
      ensures forall j :: 0 <= j < MAX_DISCOVERED ==> searches[k].discovered[j].token.None?
      ensures depth == 0 ==> retired == old(retired)
      ensures depth > 0 ==> frees == old(frees)
    {
      hide Owned, KnownHeld, WithEntry;
      for i := 0 to MAX_DISCOVERED
        invariant Owned(searches, Accounts()) && KnownHeld(owner, cleared)
        invariant inFlight == old(inFlight) && log == old(log) && old(frees) <= frees
        invariant |searches| == MAX_SEARCHES && searches == old(searches)[k := searches[k]]
        invariant searches[k].inUse == old(searches[k].inUse) && searches[k].generation == old(searches[k].generation)
        invariant |searches[k].discovered| == MAX_DISCOVERED
        invariant forall j :: 0 <= j < i ==> searches[k].discovered[j].token.None?
        invariant !searches[k].inUse ==> forall j :: 0 <= j < MAX_DISCOVERED ==> searches[k].discovered[j].token.None?
        invariant depth == 0 ==> retired == old(retired)
        invariant depth > 0 ==> frees == old(frees)
      {
        if searches[k].discovered[i].token.Some? {
          MayLeave(searches, k, i, Accounts(), NewOwner());
        }
        ghost var s, e := searches[k], searches[k].discovered[i];
        RetireFrom(k, i);
        EntryStored(s, i, e.(token := None));
      }
    }

    /** clear_search */
    method ClearSearch(k: nat)
      requires AllSound() && k < MAX_SEARCHES
      modifies this`searches, this`retired, this`inFlight, this`frees, this`owner, this`log
      ensures AllSound() && inFlight == old(inFlight) && Grown(old(Accounts()), Accounts())
      ensures searches == old(searches)[k := EmptySearch()]
      ensures log == ClearedLog(old(searches[k]), old(log))
      ensures SameGuest(old(log), log)
      ensures depth == 0 ==> retired == old(retired)
      ensures depth > 0 ==> frees == old(frees)
    {
      hide Sound, Owned, SearchesOk, SearchOk, CacheOk, SameGuest, KnownHeld, WithEntry;
      SoundParts(searches, Accounts(), clock);
      SoundSearch(searches, Accounts(), clock, k);
      ghost var cleared := ClearedLog(searches[k], log);
      if searches[k].inUse {
        HeldAppend(owner, log, Stopped(searches[k].generation));
      } else {
        IdleTokens(searches[k], clock);
      }
      RetireAll(k, cleared);
      SlotCleared(searches, k, Accounts());
      EmptySearchOk(EmptySearch(), clock);
      SearchStored(old(searches), k, EmptySearch(), clock);
      SoundAgain(searches[k := EmptySearch()], Accounts().(log := cleared), clock);
      searches := searches[k := EmptySearch()];
      log := cleared;
    }

    /** s3eZeroConfStopSearch; a handle that names no running search is ignored. */
    method StopSearch(handle: nat)
      requires AllSound()
      modifies this`searches, this`retired, this`inFlight, this`frees, this`owner, this`log
      ensures AllSound() && inFlight == old(inFlight) && SameGuest(old(log), log)
      ensures Grown(old(Accounts()), Accounts()) && StopDone(old(Now()), handle, Now())
      ensures View() == Performed(old(View()), StopOp(handle))
      ensures Undisturbed(old(searches), searches, old(generation))
      ensures depth == 0 ==> retired == old(retired)
      ensures depth > 0 ==> frees == old(frees)
    {
      if handle >= MAX_SEARCHES || !searches[handle].inUse {
        return;
      }
      EmptySearchOk(EmptySearch(), clock);
      ClearSearch(handle);
    }

    /** s3eZeroConfStartSearch: the first free slot gets an empty search with a generation of its own. */
    method StartSearch(serviceType: seq<byte>, domain: seq<byte>, found: bool, update: bool, lost: bool, socketOk: bool,
                       now: u64)
      returns (handle: Option<nat>)
      requires AllSound()
      modifies this`searches, this`generation
      ensures AllSound()
      ensures handle == StartedAt(old(searches), serviceType, domain, socketOk)
      ensures Undisturbed(old(searches), searches, old(generation)) && Grown(old(Accounts()), Accounts())
      ensures var op := StartOp(serviceType, domain, found, update, lost, socketOk, now);
              StartDone(old(Now()), op, Now()) && View() == Performed(old(View()), op)
    {
      hide Accounted, CacheOk;
      for k := 0 to MAX_SEARCHES
        invariant searches == old(searches) && generation == old(generation)
        invariant forall m :: 0 <= m < k ==> searches[m].inUse
      {
        if searches[k].inUse {
          continue;
        }
        var s := EmptySearch();
        EmptySearchOk(s, clock);
        var component := CopyComponent(serviceType, [], MAX_NAME);
        if component.None? {
          FillSlot(k, s);
          return None;
        }
        s := s.(serviceType := component.value);
        EmptySearchOk(s, clock);
        component := CopyComponent(domain, LOCAL, MAX_NAME);
        if component.None? {
          FillSlot(k, s);
          return None;
        }
        s := s.(domain := component.value);
        EmptySearchOk(s, clock);
        var joined := Joined(s.serviceType, s.domain);
        if joined.None? {
          FillSlot(k, s);
          return None;
        }
        if !socketOk {
          EmptySearchOk(EmptySearch(), clock);
          FillSlot(k, EmptySearch());
          return None;
        }
        s := s.(serviceFqdn := joined.value, generation := generation + 1, found := found, update := update,
                lost := lost,
                inUse := true, nextQuery := now + QUERY_INTERVAL);
        EmptySearchOk(s, clock);
        FillSlot(k, s);
        return Some(k);
      }
      return None;
    }

    /** Overwrites a free slot with an empty search; a search in use takes the next generation. */
    method FillSlot(k: nat, s: Search)
      requires AllSound() && k < MAX_SEARCHES && !searches[k].inUse
      requires SearchOk(s, clock) && NoEntries(s) && (s.inUse ==> s.generation == generation + 1)
      modifies this`searches, this`generation
      ensures AllSound() && searches == old(searches)[k := s]
      ensures generation == if s.inUse then old(generation) + 1 else old(generation)
    {
      assert SearchOk(searches[k], clock) && |s.discovered| == |searches[k].discovered|;
      hide Accounted, CacheOk;
      SlotFilled(searches, k, s, Accounts());
      searches := searches[k := s];
      generation := if s.inUse then generation + 1 else generation;
    }

    // ---------- Callbacks ----------

    /** The body of a callback: any sequence of public calls, which are returned. Nothing is freed while it runs. */
    method GuestCalls() returns (ghost done: seq<GuestOp>)
      requires AllSound() && depth > 0
      modifies this`searches, this`generation, this`retired, this`inFlight, this`frees, this`owner, this`log
      ensures AllSound() && inFlight == old(inFlight) && frees == old(frees) && Grown(old(Accounts()), Accounts())
      ensures Undisturbed(old(searches), searches, old(generation))
      ensures SameGuest(old(log), log) && OnlyStops(old(log), log)
      ensures View() == PerformedAll(old(View()), done)
    {
      hide Sound, NoEntries, Guest, Performed, PerformedAll;
      var ops: seq<GuestOp> := *;
      done := [];
      NothingPerformed(View());
      while ops != []
        invariant AllSound() && inFlight == old(inFlight) && frees == old(frees) && Grown(old(Accounts()), Accounts())
        invariant Undisturbed(old(searches), searches, old(generation))
        invariant SameGuest(old(log), log) && OnlyStops(old(log), log)
        invariant View() == PerformedAll(old(View()), done)
        decreases |ops|
      {
        var op := ops[0];
        ops := ops[1..];
        PerformedMore(old(View()), done, op);
        done := done + [op];
        match op
        case StartOp(serviceType, domain, found, update, lost, socketOk, now) =>
          var _ := StartSearch(serviceType, domain, found, update, lost, socketOk, now);
        case StopOp(handle) =>
          StopSearch(handle);
      }
    }

    /** callback_enter, the callback with what it is told, callback_leave. The searches are then what the recorded calls
        make of them. */
    method RunCallback(event: Event)
      requires AllSound() && NoneWaiting()
      modifies this`searches, this`generation, this`retired, this`depth, this`inFlight, this`frees, this`owner,
               this`log, this`calls, this`made
      ensures AllSound() && NoneWaiting() && depth == old(depth) && inFlight == old(inFlight)
      ensures Undisturbed(old(searches), searches, old(generation)) && Grown(old(Accounts()), Accounts())
      ensures SameGuest(old(log), log) && OnlyStops(old(log), log) && calls == old(calls) + [event]
      ensures |made| == |old(made)| + 1 && old(made) <= made
      ensures View() == PerformedAll(old(View()), made[|old(made)|])
      ensures depth > 0 ==> frees == old(frees)
    {
      hide PerformedAll, Sound, Guest, NoEntries, Undisturbed, SameGuest, OnlyStops;
      SoundMade(searches, Accounts(), clock, calls + [event], made);
      depth := depth + 1;
      calls := calls + [event];
      ghost var done := GuestCalls();
      if depth > 0 {
        depth := depth - 1;
      }
      FlushRetired();
      SoundMade(searches, Accounts(), clock, calls, made + [done]);
      made := made + [done];
    }

    // ---------- Dispatch ----------

    /** A notification: recorded, and told to the search's callback exactly if there is one. */
    method Notify(event: Event)
      requires Sound(searches, Accounts().(log := log + [event]), clock) && NoneWaiting() && calls == Delivered(log)
      requires !event.Stopped? && |made| == |calls|
      modifies this`searches, this`generation, this`retired, this`depth, this`inFlight, this`frees, this`owner,
               this`log, this`calls, this`made
      ensures Valid() && depth == old(depth) && inFlight == old(inFlight) && Grown(old(Accounts()), Accounts())
      ensures calls == old(calls) + (if event.delivered then [event] else [])
      ensures !event.delivered ==> Now() == Moment(old(searches), old(Accounts()).(log := old(log) + [event]))
      ensures Undisturbed(old(searches), searches, old(generation))
      ensures SameGuest(old(log) + [event], log) && OnlyStops(old(log) + [event], log)
      ensures depth > 0 ==> frees == old(frees)
      ensures forall later | made <= later :: View() == Notified(old(View()), event, later)
    {
      hide Sound, NoEntries, Guest, Delivered, PerformedAll;
      DeliveredAppend(log, event);
      log := log + [event];
      if event.delivered {
        RunCallback(event);
      }
      StopsDeliverNothing(old(log) + [event], log);
      forall later | made <= later
        ensures View() == Notified(old(View()), event, later)
      {
        assert event.delivered ==> CallsAt(later, |old(made)|) == made[|old(made)|];
      }
    }

    /** clear_discovered */
    method ClearDiscovered(k: nat, i: nat)
      requires Valid() && k < MAX_SEARCHES && searches[k].inUse && i < |searches[k].discovered|
      requires !searches[k].discovered[i].notified
      modifies this`searches, this`retired, this`inFlight, this`frees, this`owner
      ensures Valid() && inFlight == old(inFlight) && Grown(old(Accounts()), Accounts())
      ensures searches == old(searches)[k := WithEntry(old(searches[k]), i, EMPTY_ENTRY)]
      ensures var t := old(searches[k].discovered[i].token);
              && frees == old(frees) + (if depth == 0 && t.Some? then [t.value] else [])
              && retired == (if depth > 0 && t.Some? then [t.value] else []) + old(retired)
    {
      hide Sound, SearchOk, Owned, KnownHeld, CacheOk, SearchesOk, Delivered;
      SoundParts(searches, Accounts(), clock);
      SoundSearch(searches, Accounts(), clock, k);
      ClearedOk(searches[k], i, clock);
      SearchStored(searches, k, WithEntry(searches[k], i, EMPTY_ENTRY), clock);
      StoredTwice(searches, k, i, searches[k].discovered[i].(token := None), EMPTY_ENTRY);
      if searches[k].discovered[i].token.Some? {
        Forgettable(searches, k, i, Accounts());
        OwnerMoved(owner, log, searches[k].discovered[i].token.value, NewOwner());
      }
      RetireFrom(k, i);
      SearchReplaced(searches, k, WithEntry(searches[k], i, EMPTY_ENTRY), Accounts());
      searches := searches[k := WithEntry(searches[k], i, EMPTY_ENTRY)];
      SoundAgain(searches, Accounts(), clock);
    }

    /** The end of a dispatch: the changes have been told, unless records came in meanwhile. */
    method ClearFlags(k: nat, i: nat, sequence: nat)
      requires Valid() && k < MAX_SEARCHES && searches[k].inUse && i < |searches[k].discovered|
      modifies this`searches
      ensures Valid()
      ensures var e := old(searches[k].discovered[i]);
              searches == old(searches)[k := WithEntry(old(searches[k]), i,
                if e.changes == sequence then Unflagged(e) else e)]
    {
      var e := searches[k].discovered[i];
      if e.changes == sequence {
        var f := Unflagged(e);
        MarkedOk(searches[k], i, f, clock);
        SearchStored(searches, k, WithEntry(searches[k], i, f), clock);
        hide Accounted, CacheOk, SearchesOk;
        SearchReplaced(searches, k, WithEntry(searches[k], i, f), Accounts());
        searches := searches[k := WithEntry(searches[k], i, f)];
      } else {
        assert searches[k].discovered[i := e] == searches[k].discovered;
        assert searches[k := WithEntry(searches[k], i, e)] == searches;
      }
    }

    /** dispatch_found */
    method DispatchFound(k: nat, i: nat)
      requires Valid() && k < MAX_SEARCHES && searches[k].inUse && i < |searches[k].discovered|
      requires searches[k].discovered[i].inUse && searches[k].discovered[i].Complete()
      requires !searches[k].discovered[i].notified
      modifies this`searches, this`generation, this`retired, this`depth, this`inFlight, this`frees, this`owner,
               this`log, this`calls, this`made
      ensures Valid() && depth == old(depth) && inFlight == old(inFlight) && Grown(old(Accounts()), Accounts())
      ensures Undisturbed(old(searches)[k := WithEntry(old(searches[k]), i,
                                                       Told(old(searches[k].discovered[i]),
                                                            old(searches[k].discovered[i].token)))],
                          searches, old(generation))
      ensures old(searches[k].discovered[i].token.Some?)
      ensures var t := old(searches[k].discovered[i].token.value);
              && OnlyStops(old(log) + [Found(old(searches[k].generation), t, old(searches[k].discovered[i]),
                                             old(searches[k].found))], log)
              && SameBut(old(log), log, t) && Guest(log, t) == Known(ReportOf(old(searches[k].discovered[i])))
      ensures FoundSaid(old(View()), k, i, made, View())
    {
      hide Accounted, CacheOk, SearchesOk, Guest, NoEntries, Notified;
      SoundSearch(searches, Accounts(), clock, k);
      GenerationBound(searches, Accounts(), k);
      EntryHasToken(searches[k], i, clock);
      var e := searches[k].discovered[i];
      var event := Found(searches[k].generation, e.token.value, e, searches[k].found);
      MarkedOk(searches[k], i, Told(e, e.token), clock);
      SearchStored(searches, k, WithEntry(searches[k], i, Told(e, e.token)), clock);
      FoundAccounted(searches, k, i, e.token.value, searches[k].found, Accounts());
      searches := searches[k := WithEntry(searches[k], i, Told(e, e.token))];
      assert View() == Stored(old(View()), k, i, Told(e, e.token));
      Notify(event);
    }

    /** dispatch_update; without a callback nothing happens, but what it would have said is recorded. */
    method DispatchUpdate(k: nat, i: nat)
      requires Valid() && k < MAX_SEARCHES && searches[k].inUse && i < |searches[k].discovered|
      requires searches[k].discovered[i].inUse && searches[k].discovered[i].notified
      modifies this`searches, this`generation, this`retired, this`depth, this`inFlight, this`frees, this`owner,
               this`log, this`calls, this`made
      ensures Valid() && depth == old(depth) && inFlight == old(inFlight) && Grown(old(Accounts()), Accounts())
      ensures Undisturbed(old(searches), searches, old(generation))
      ensures old(searches[k].discovered[i].token.Some?)
      ensures var t := old(searches[k].discovered[i].token.value);
              && OnlyStops(old(log) + [Updated(old(searches[k].generation), t, old(searches[k].discovered[i].txt),
                                               old(searches[k].update))], log)
              && SameBut(old(log), log, t) && Guest(old(log), t).Known?
              && Guest(log, t) == Known(Guest(old(log), t).report.(txt := old(searches[k].discovered[i].txt)))
      ensures UpdateSaid(old(View()), k, i, made, View())
    {
      hide Accounted, CacheOk, SearchesOk, Guest, NoEntries, Notified;
      SoundSearch(searches, Accounts(), clock, k);
      GenerationBound(searches, Accounts(), k);
      EntryHasToken(searches[k], i, clock);
      var e := searches[k].discovered[i];
      UpdateAccounted(searches, k, i, e.token.value, searches[k].update, Accounts());
      Notify(Updated(searches[k].generation, e.token.value, e.txt, searches[k].update));
    }

    /** rotate_service_id_after_lost with dispatch_lost: the entry takes a new token, the guest is told that the old
        one is lost, and the old one is retired after the callback. True if the search did not survive the
        callback. */
    method RotateAfterLost(k: nat, i: nat, searchGeneration: nat) returns (stopped: bool)
      requires Valid() && k < MAX_SEARCHES && searches[k].inUse && i < |searches[k].discovered|
      requires searches[k].discovered[i].inUse && searches[k].discovered[i].notified
      modifies this`searches, this`generation, this`nextToken, this`retired, this`depth, this`inFlight, this`frees,
               this`owner, this`log, this`calls, this`made
      ensures Valid() && depth == old(depth) && inFlight == old(inFlight) && Grown(old(Accounts()), Accounts())
      ensures nextToken == old(nextToken) + 1
      ensures var e := Replaced(old(searches[k].discovered[i]), old(nextToken));
              Undisturbed(old(searches)[k := WithEntry(old(searches[k]), i, e)], searches, old(generation))
      ensures stopped <==> !searches[k].inUse || searches[k].generation != searchGeneration
      ensures old(searches[k].discovered[i].token.Some?)
      ensures var t := old(searches[k].discovered[i].token.value);
              && OnlyStops(old(log) + [Lost(old(searches[k].generation), t, old(searches[k].lost))], log)
              && SameBut(old(log), log, t) && Guest(log, t) == Gone && t < old(nextToken)
      ensures LostSaid(old(View()), k, i, made, View())
    {
      hide Sound, Guest, NoEntries, Replaced, OnlyStops, Delivered, SameGuest, SameBut, Grown, Undisturbed, Notified,
           LostSaid, Rotated;
      SoundSearch(searches, Accounts(), clock, k);
      SoundParts(searches, Accounts(), clock);
      GenerationBound(searches, Accounts(), k);
      ghost var t := RotationSound(searches, k, i, Accounts(), clock);
      var e := searches[k].discovered[i];
      var lost, event := e.token.value, Lost(searches[k].generation, e.token.value, searches[k].lost);
      ghost var view := View();
      ghost var books := RotatedBooks(Accounts(), k, i, t, searches[k].generation, searches[k].lost);
      RotationGrows(Accounts(), k, i, t, searches[k].generation, searches[k].lost);
      searches := searches[k := WithEntry(searches[k], i, Replaced(e, nextToken))];
      inFlight, owner := inFlight + {lost}, owner[lost := InFlight][nextToken := InEntry(k, i)];
      nextToken := nextToken + 1;
      assert Accounts().(log := log + [event]) == books;
      RotatedIs(view, k, i, searches);
      assert View() == Rotated(view, k, i);
      NotifyLost(lost, event);
      LostIsSaid(view, k, i, event, made, View());
      SoundSearch(searches, Accounts(), clock, k);
      stopped := !searches[k].inUse || searches[k].generation != searchGeneration;
      SameButThen(old(log), books.log, log, t);
      GrownOn(old(Accounts()), books, Accounts());
    }

    /** dispatch_lost, and the lost token retired after it. */
    method NotifyLost(lost: nat, event: Event)
      requires Sound(searches, Accounts().(log := log + [event]), clock) && NoneWaiting() && calls == Delivered(log)
      requires event.Lost? && event.token == lost && lost in inFlight && |made| == |calls|
      modifies this`searches, this`generation, this`retired, this`depth, this`inFlight, this`frees, this`owner,
               this`log, this`calls, this`made
      ensures Valid() && depth == old(depth) && inFlight == old(inFlight) - {lost}
      ensures Grown(old(Accounts()).(log := old(log) + [event]), Accounts())
      ensures Undisturbed(old(searches), searches, old(generation))
      ensures SameGuest(old(log) + [event], log) && OnlyStops(old(log) + [event], log)
      ensures forall later | made <= later :: View() == Notified(old(View()), event, later)
    {
      hide Sound, Delivered, SameGuest, Undisturbed, KnownHeld, Owned, Notified;
      Notify(event);
      SoundParts(searches, Accounts(), clock);
      ghost var owned := owner;
      RetireToken(lost);
      OwnerMoved(owned, log, lost, NewOwner());
      SoundAgain(searches, Accounts(), clock);
    }

    /** The branch for entries to be removed. */
    method DispatchRemoval(k: nat, i: nat, searchGeneration: nat) returns (stopped: bool)
      requires Valid() && k < MAX_SEARCHES && searches[k].inUse && i < |searches[k].discovered|
      requires searches[k].generation == searchGeneration
      requires searches[k].discovered[i].inUse && searches[k].discovered[i].remove
      modifies this`searches, this`generation, this`nextToken, this`retired, this`depth, this`inFlight, this`frees,
               this`owner, this`log, this`calls, this`made
      ensures Valid() && depth == old(depth) && inFlight == old(inFlight) && Grown(old(Accounts()), Accounts())
      ensures var e := old(searches[k].discovered[i]);
              && Undisturbed(old(searches)[k := WithEntry(old(searches[k]), i,
                                                          DispatchedEntry(e, TokenAfter(e, old(nextToken))))],
                             searches, old(generation))
              && nextToken == old(nextToken) + One(Rotates(e))
      ensures stopped <==> !searches[k].inUse || searches[k].generation != searchGeneration
      ensures EntryTold(old(searches[k].discovered[i]), old(nextToken), old(log), log, stopped)
      ensures EntryDone(old(View()), k, i, made, View())
    {
      hide Sound, CacheOk, Guest, Undisturbed, OnlyStops, Delivered, Grown, EntryTold, SameBut, NoneWaiting,
           EntryDone, LostSaid;
      SoundSearch(searches, Accounts(), clock, k);
      SoundParts(searches, Accounts(), clock);
      GenerationBound(searches, Accounts(), k);
      ghost var ss, e, books, view := searches, searches[k].discovered[i], Accounts(), View();
      EntryHasToken(searches[k], i, clock);
      GrownNone(books);
      if searches[k].discovered[i].notified {
        StoredTwice(ss, k, i, Replaced(e, nextToken), EMPTY_ENTRY);
        ghost var mid := WithEntry(ss[k], i, Replaced(e, nextToken));
        stopped := RotateAfterLost(k, i, searchGeneration);
        ToldLost(e, old(nextToken), old(log), log, stopped);
        SoundSlots(searches, Accounts(), clock);
        LostThenDone(view, k, i, made, View());
        if stopped {
          GoneAnyway(ss, k, mid, WithEntry(ss[k], i, EMPTY_ENTRY), searches, old(generation));
          return;
        }
        StillThere(ss, k, mid, searches, books);
        UndisturbedThen(ss, k, mid, searches, WithEntry(ss[k], i, EMPTY_ENTRY), old(generation));
        EntryTwice(ss[k], i, Replaced(e, old(nextToken)), EMPTY_ENTRY);
      } else {
        ToldLost(e, nextToken, log, log, false);
        SilentlyDone(view, k, i, made);
        UndisturbedStore(ss, k, WithEntry(ss[k], i, EMPTY_ENTRY), generation);
      }
      ghost var mid, between := searches, Accounts();
      if searches[k].discovered[i].remove {
        ClearDiscovered(k, i);
      }
      GrownOn(books, between, Accounts());
      return false;
    }

    /** The branch for entries that lack a record. */
    method DispatchIncomplete(k: nat, i: nat, searchGeneration: nat) returns (stopped: bool)
      requires Valid() && k < MAX_SEARCHES && searches[k].inUse && i < |searches[k].discovered|
      requires searches[k].generation == searchGeneration
      requires searches[k].discovered[i].inUse && !searches[k].discovered[i].remove
      requires !searches[k].discovered[i].Complete()
      modifies this`searches, this`generation, this`nextToken, this`retired, this`depth, this`inFlight, this`frees,
               this`owner, this`log, this`calls, this`made
      ensures Valid() && depth == old(depth) && inFlight == old(inFlight) && Grown(old(Accounts()), Accounts())
      ensures var e := old(searches[k].discovered[i]);
              && Undisturbed(old(searches)[k := WithEntry(old(searches[k]), i,
                                                          DispatchedEntry(e, TokenAfter(e, old(nextToken))))],
                             searches, old(generation))
              && nextToken == old(nextToken) + One(Rotates(e))
      ensures stopped <==> !searches[k].inUse || searches[k].generation != searchGeneration
      ensures EntryTold(old(searches[k].discovered[i]), old(nextToken), old(log), log, stopped)
      ensures EntryDone(old(View()), k, i, made, View())
    {
      hide Sound, CacheOk, Guest, Undisturbed, OnlyStops, Delivered, Grown, EntryTold, SameBut, NoneWaiting,
           DispatchedEntry, Unflagged, EntryDone, LostSaid;
      SoundSearch(searches, Accounts(), clock, k);
      SoundParts(searches, Accounts(), clock);
      GenerationBound(searches, Accounts(), k);
      ghost var ss, e, books, view := searches, searches[k].discovered[i], Accounts(), View();
      var sequence := searches[k].discovered[i].changes;
      ghost var f := DispatchedEntry(e, TokenAfter(e, nextToken));
      EntryHasToken(searches[k], i, clock);
      DispatchedParts(e, nextToken);
      GrownNone(books);
      if searches[k].discovered[i].notified {
        StoredTwice(ss, k, i, Replaced(e, nextToken), f);
        ghost var mid := WithEntry(ss[k], i, Replaced(e, nextToken));
        stopped := RotateAfterLost(k, i, searchGeneration);
        ToldLost(e, old(nextToken), old(log), log, stopped);
        SoundSlots(searches, Accounts(), clock);
        LostThenDone(view, k, i, made, View());
        if stopped {
          GoneAnyway(ss, k, mid, WithEntry(ss[k], i, f), searches, old(generation));
          return;
        }
        StillThere(ss, k, mid, searches, books);
        UndisturbedThen(ss, k, mid, searches, WithEntry(ss[k], i, f), old(generation));
        EntryTwice(ss[k], i, Replaced(e, old(nextToken)), f);
      } else {
        ToldLost(e, nextToken, log, log, false);
        SilentlyDone(view, k, i, made);
        UndisturbedStore(ss, k, WithEntry(ss[k], i, f), generation);
      }
      ghost var mid := searches;
      ClearFlags(k, i, sequence);
      return false;
    }

    /** A known entry whose endpoint changed is lost under its old token and found again under a new one. */
    method DispatchMoved(k: nat, i: nat, searchGeneration: nat) returns (stopped: bool)
      requires Valid() && k < MAX_SEARCHES && searches[k].inUse && i < |searches[k].discovered|
      requires searches[k].discovered[i].inUse && searches[k].discovered[i].notified
      requires searches[k].discovered[i].Complete()
      requires !searches[k].discovered[i].remove && searches[k].discovered[i].endpointChanged
      requires searches[k].generation == searchGeneration
      modifies this`searches, this`generation, this`nextToken, this`retired, this`depth, this`inFlight, this`frees,
               this`owner, this`log, this`calls, this`made
      ensures Valid() && depth == old(depth) && inFlight == old(inFlight) && Grown(old(Accounts()), Accounts())
      ensures var told := Told(old(searches[k].discovered[i]), Some(old(nextToken)));
              Undisturbed(old(searches)[k := WithEntry(old(searches[k]), i, told)], searches, old(generation))
      ensures nextToken == old(nextToken) + 1
      ensures stopped ==> !searches[k].inUse || searches[k].generation != searchGeneration
      ensures EntryTold(old(searches[k].discovered[i]), old(nextToken), old(log), log, stopped)
      ensures CompleteSaid(old(View()), k, i, made, View())
    {
      hide Sound, CacheOk, Guest, Undisturbed, OnlyStops, Delivered, Grown, EntryTold, SameBut, NoneWaiting,
           CompleteSaid, LostSaid, FoundSaid;
      SoundSlots(searches, Accounts(), clock);
      ghost var ss, e, books, view := searches, searches[k].discovered[i], Accounts(), View();
      ghost var told := Told(e, Some(nextToken));
      SoundParts(searches, Accounts(), clock);
      GenerationBound(searches, Accounts(), k);
      SoundSearch(searches, Accounts(), clock, k);
      EntryHasToken(searches[k], i, clock);
      StoredTwice(ss, k, i, Replaced(e, nextToken), told);
      ghost var lost := WithEntry(ss[k], i, Replaced(e, nextToken));
      stopped := RotateAfterLost(k, i, searchGeneration);
      SoundSlots(searches, Accounts(), clock);
      if stopped {
        MoveIsSaid(view, k, i, made, View(), made, View());
        GoneAnyway(ss, k, lost, WithEntry(ss[k], i, told), searches, old(generation));
        ToldMoved(e, old(nextToken), old(log), log, log, true);
        return;
      }
      ghost var mid, between, seen := searches, Accounts(), View();
      StillThere(ss, k, lost, mid, books);
      GrownBound(books, between);
      EntryTwice(ss[k], i, Replaced(e, old(nextToken)), told);
      if !searches[k].discovered[i].notified {
        DispatchFound(k, i);
      }
      GrownBound(between, Accounts());
      MoveIsSaid(view, k, i, between.made, seen, made, View());
      UndisturbedTwice(ss, k, lost, mid, WithEntry(ss[k], i, told), searches, old(generation), between.generation);
      ToldMoved(e, old(nextToken), old(log), between.log, log, false);
      GrownOn(old(Accounts()), between, Accounts());
    }

    /** Found, moved, updated or nothing: one notification at most for a complete entry, two for a moved one. */
    method TellComplete(k: nat, i: nat, searchGeneration: nat) returns (stopped: bool)
      requires Valid() && k < MAX_SEARCHES && searches[k].inUse && i < |searches[k].discovered|
      requires searches[k].discovered[i].inUse && !searches[k].discovered[i].remove
      requires searches[k].discovered[i].Complete()
      requires searches[k].generation == searchGeneration
      modifies this`searches, this`generation, this`nextToken, this`retired, this`depth, this`inFlight, this`frees,
               this`owner, this`log, this`calls, this`made
      ensures Valid() && depth == old(depth) && inFlight == old(inFlight) && Grown(old(Accounts()), Accounts())
      ensures var e := old(searches[k].discovered[i]);
              && Undisturbed(old(searches)[k := WithEntry(old(searches[k]), i, Told(e, TokenAfter(e, old(nextToken))))],
                             searches, old(generation))
              && nextToken == old(nextToken) + One(Rotates(e))
      ensures stopped ==> !searches[k].inUse || searches[k].generation != searchGeneration
      ensures EntryTold(old(searches[k].discovered[i]), old(nextToken), old(log), log, stopped)
      ensures CompleteSaid(old(View()), k, i, made, View())
    {
      ghost var e := searches[k].discovered[i];
      EntryHasToken(searches[k], i, clock);
      if e.notified && !e.endpointChanged {
        DispatchedParts(e, nextToken);
        StoredSame(searches, k, i);
      }
      hide Accounted, CacheOk, Guest, Undisturbed, EntryTold, SameBut, Told, CompleteSaid, FoundSaid, UpdateSaid;
      ghost var view := View();
      GenerationBound(searches, Accounts(), k);
      stopped := false;
      if !searches[k].discovered[i].notified {
        DispatchFound(k, i);
        FoundIsSaid(view, k, i, made, View());
        ToldFound(e, old(nextToken), old(log), log, false);
      } else if searches[k].discovered[i].endpointChanged {
        stopped := DispatchMoved(k, i, searchGeneration);
      } else if searches[k].discovered[i].txtChanged {
        DispatchUpdate(k, i);
        UpdateIsSaid(view, k, i, made, View());
        ToldUpdated(e, old(nextToken), old(log), log, false);
      } else {
        UpdateIsSaid(view, k, i, made, View());
        ToldNothing(e, nextToken, log, false);
      }
    }

    /** The branch for complete entries. */
    method DispatchComplete(k: nat, i: nat, searchGeneration: nat) returns (stopped: bool)
      requires Valid() && k < MAX_SEARCHES && searches[k].inUse && i < |searches[k].discovered|
      requires searches[k].generation == searchGeneration
      requires searches[k].discovered[i].inUse && !searches[k].discovered[i].remove
      requires searches[k].discovered[i].Complete()
      modifies this`searches, this`generation, this`nextToken, this`retired, this`depth, this`inFlight, this`frees,
               this`owner, this`log, this`calls, this`made
      ensures Valid() && depth == old(depth) && inFlight == old(inFlight) && Grown(old(Accounts()), Accounts())
      ensures var e := old(searches[k].discovered[i]);
              && Undisturbed(old(searches)[k := WithEntry(old(searches[k]), i,
                                                          DispatchedEntry(e, TokenAfter(e, old(nextToken))))],
                             searches, old(generation))
              && nextToken == old(nextToken) + One(Rotates(e))
      ensures stopped <==> !searches[k].inUse || searches[k].generation != searchGeneration
      ensures EntryTold(old(searches[k].discovered[i]), old(nextToken), old(log), log, stopped)
      ensures EntryDone(old(View()), k, i, made, View())
    {
      hide Sound, CacheOk, Guest, Undisturbed, EntryTold, SameBut, Rotates, DispatchedEntry, Told, Unflagged,
           TokenAfter, Delivered, Grown, NoneWaiting, CompleteSaid, EntryDone;
      SoundSearch(searches, Accounts(), clock, k);
      SoundParts(searches, Accounts(), clock);
      ghost var ss, e, books, view := searches, searches[k].discovered[i], Accounts(), View();
      var sequence := searches[k].discovered[i].changes;
      ghost var told := WithEntry(ss[k], i, Told(e, TokenAfter(e, nextToken)));
      ghost var done := WithEntry(ss[k], i, DispatchedEntry(e, TokenAfter(e, nextToken)));
      DispatchedParts(e, nextToken);
      stopped := TellComplete(k, i, searchGeneration);
      SoundSlots(searches, Accounts(), clock);
      SaidThenDone(view, k, i, made, View());
      if stopped || !searches[k].inUse || searches[k].generation != searchGeneration {
        GoneAnyway(ss, k, told, done, searches, old(generation));
        if !stopped { ToldStopped(e, old(nextToken), old(log), log); }
        return true;
      }
      StillThere(ss, k, told, searches, books);
      StoredTwice(ss, k, i, Told(e, TokenAfter(e, old(nextToken))), DispatchedEntry(e, TokenAfter(e, old(nextToken))));
      UndisturbedThen(ss, k, told, searches, done, old(generation));
      EntryTwice(ss[k], i, Told(e, TokenAfter(e, old(nextToken))), DispatchedEntry(e, TokenAfter(e, old(nextToken))));
      ghost var mid := searches;
      ClearFlags(k, i, sequence);
      return false;
    }

    /** One turn of the loop of dispatch_search_changes: every case leaves the entry in step with the guest.
        True if the search did not survive a callback. */
    method DispatchEntry(k: nat, i: nat, searchGeneration: nat) returns (stopped: bool)
      requires Valid() && k < MAX_SEARCHES && searches[k].inUse && i < |searches[k].discovered|
      requires searches[k].generation == searchGeneration
      modifies this`searches, this`generation, this`nextToken, this`retired, this`depth, this`inFlight, this`frees,
               this`owner, this`log, this`calls, this`made
      ensures Valid() && depth == old(depth) && inFlight == old(inFlight) && Grown(old(Accounts()), Accounts())
      ensures var e := old(searches[k].discovered[i]);
              && Undisturbed(old(searches)[k := WithEntry(old(searches[k]), i,
                                                          DispatchedEntry(e, TokenAfter(e, old(nextToken))))],
                             searches, old(generation))
              && nextToken == old(nextToken) + One(Rotates(e))
      ensures stopped <==> !searches[k].inUse || searches[k].generation != searchGeneration
      ensures EntryTold(old(searches[k].discovered[i]), old(nextToken), old(log), log, stopped)
      ensures EntryDone(old(View()), k, i, made, View())
    {
      hide Sound, EntryDone;
      SoundSlots(searches, Accounts(), clock);
      var e := searches[k].discovered[i];
      if !e.inUse {
        assert WithEntry(searches[k], i, e) == searches[k];
        SoundParts(searches, Accounts(), clock);
        GenerationBound(searches, Accounts(), k);
        UnusedThenDone(View(), k, i, made);
        stopped := false;
      } else if e.remove {
        stopped := DispatchRemoval(k, i, searchGeneration);
      } else if !e.Complete() {
        stopped := DispatchIncomplete(k, i, searchGeneration);
      } else {
        stopped := DispatchComplete(k, i, searchGeneration);
      }
    }

    /** dispatch_search_changes: if the search survives, every entry is dispatched and an honest search becomes a
        settled one; other searches are at most stopped or started by callbacks. */
    method DispatchSearchChanges(k: nat)
      requires Valid() && k < MAX_SEARCHES && searches[k].inUse
      modifies this`searches, this`generation, this`nextToken, this`retired, this`depth, this`inFlight, this`frees,
               this`owner, this`log, this`calls, this`made
      ensures Valid() && depth == old(depth) && inFlight == old(inFlight) && Grown(old(Accounts()), Accounts())
      ensures OthersKeptInStep(k, old(searches), old(log), searches, log, old(generation))
      ensures if SameSearch(old(searches[k]), searches[k])
              then && DispatchedSearch(old(searches[k]), searches[k])
                   && AllTold(old(searches[k]), searches[k], old(log), log)
              else SlotKept(EmptySearch(), searches[k], old(generation))
      ensures AllMarked(searches[k])
      ensures AllHonest(old(searches[k]), old(log)) ==> AllSettled(searches[k], log)
      ensures SearchDone(old(View()), k, made, View())
    {
      hide Sound, CacheOk, Guest, Undisturbed, EntryTold, NoEntries, Dispatching, OnlyAbout, DispatchedEntry,
           TokenAfter, OthersKeptInStep, AllSettled, AllHonest, SlotKept, OwnTokens, AllTold, AllMarked, Grown,
           Delivered, NoneWaiting, DispatchedSearch, Rotates, EntryDone, DispatchReaches, SearchDone;
      SoundSearch(searches, Accounts(), clock, k);
      SoundParts(searches, Accounts(), clock);
      ghost var ss, s, books := searches, searches[k], Accounts();
      ghost var view := View();
      var searchGeneration := searches[k].generation;
      LoopsBegin(view, k, searchGeneration, [], 0, made);
      DispatchBegins(ss, k, books);
      GrownNone(books);
      NothingSaid(ss, k, books);
      for i := 0 to MAX_DISCOVERED
        invariant Valid() && |searches| == MAX_SEARCHES && depth == old(depth) && inFlight == old(inFlight)
        invariant Grown(old(Accounts()), Accounts())
        invariant searches[k].inUse && searches[k].generation == searchGeneration
        invariant |searches[k].discovered| == MAX_DISCOVERED
        invariant Dispatching(s, searches[k], i, old(log), log)
        invariant OnlyAbout(s, old(nextToken), old(log), log)
        invariant forall m :: 0 <= m < MAX_SEARCHES && m != k ==> SlotKept(ss[m], searches[m], old(generation))
        invariant DispatchReaches(view, k, searchGeneration, i, made, View())
      {
        ghost var before, mid, seen := searches, Accounts(), View();
        ghost var e := s.discovered[i];
        ghost var done := WithEntry(searches[k], i, DispatchedEntry(e, TokenAfter(e, nextToken)));
        EntryStillThere(s, searches[k], i, old(log), log);
        SoundParts(searches, mid, clock);
        SoundSlots(searches, mid, clock);
        var stopped := DispatchEntry(k, i, searchGeneration);
        SoundSlots(searches, Accounts(), clock);
        GrownOn(books, mid, Accounts());
        DispatchNext(view, k, searchGeneration, i, mid.made, seen, made, View());
        OthersKept(ss, before, k, done, searches, old(generation), mid.generation);
        OnlyAboutMore(s, old(nextToken), old(log), mid.log, log, e, mid.next, stopped);
        if stopped {
          StoppedSlot(before, k, done, searches, mid.generation, log);
          GoneMarked(searches[k], old(generation), mid.generation);
          DispatchOver(view, k, searchGeneration, i + 1, made, View());
          OthersAllSettled(ss, books, k, searches, old(generation), log);
          return;
        }
        StillThere(before, k, done, searches, mid);
        DispatchTurn(s, i, old(log), before, k, mid, log, books.next);
      }
      DispatchOver(view, k, searchGeneration, MAX_DISCOVERED, made, View());
      DispatchEnds(s, searches[k], old(log), log);
      DispatchedMarked(s, searches[k]);
      OthersAllSettled(ss, books, k, searches, old(generation), log);
    }

    // ---------- Packets ----------

    /** The records of a packet on one search, up to its dispatch. */
    method ApplyPacket(k: nat, records: seq<Record>, now: u64)
      requires Valid() && k < MAX_SEARCHES && searches[k].inUse && clock == now && AllParsed(records)
      modifies this`searches, this`nextToken, this`owner
      ensures Valid()
      ensures searches == old(searches)[k := PacketApplied(Cache(old(searches[k]), old(nextToken)), records, now)]
      ensures nextToken == PacketTokens(Cache(old(searches[k]), old(nextToken)), records, now)
      ensures SameIdentity(old(searches[k]), searches[k]) && Grown(old(Accounts()), Accounts())
    {
      hide Sound, SearchesOk, Accounted, Delivered, CacheOk, FoldPtr, FoldService, FoldAddress, FollowedUpSearch,
           AllParsed;
      SoundParts(searches, Accounts(), clock);
      SoundSearch(searches, Accounts(), clock, k);
      ghost var books := PacketAccounted(searches, k, records, now, Accounts());
      var c := Cache(searches[k], nextToken);
      c := ApplyPtrRecords(c, records, now);
      c := ApplyServiceRecords(c, records, now);
      var s := ApplyAddressRecords(c.search, records, now);
      var queries;
      s, queries := SendFollowUps(s, now);
      SearchStored(searches, k, s, clock);
      searches, nextToken := searches[k := s], c.nextToken;
      owner := books.owner;
      SoundAgain(searches, Accounts(), clock);
    }

    /** One search's turn in s3e_zero_conf_process_packet. */
    method ProcessSearch(k: nat, records: seq<Record>, now: u64)
      requires Valid() && k < MAX_SEARCHES && searches[k].inUse && clock == now && AllParsed(records)
      modifies this`searches, this`generation, this`nextToken, this`retired, this`depth, this`inFlight, this`frees,
               this`owner, this`log, this`calls, this`made
      ensures Valid() && depth == old(depth) && inFlight == old(inFlight) && Grown(old(Accounts()), Accounts())
      ensures OthersKeptInStep(k, old(searches), old(log), searches, log, old(generation))
      ensures SameSearch(old(searches[k]), searches[k]) || SlotKept(EmptySearch(), searches[k], old(generation))
      ensures PacketEffect(old(searches[k]), searches[k], records, now)
      ensures var applied := PacketApplied(Cache(old(searches[k]), old(nextToken)), records, now);
              SameSearch(old(searches[k]), searches[k]) ==>
                DispatchedSearch(applied, searches[k]) && AllTold(applied, searches[k], old(log), log)
      ensures AllMarked(searches[k])
      ensures NoRevival(records) && AllSettled(old(searches[k]), old(log)) ==> AllSettled(searches[k], log)
      ensures AllSettled(old(searches[k]), old(log)) ==>
        (AllSettled(searches[k], log) <==>
           !SameSearch(old(searches[k]), searches[k]) || Undeceived(old(searches[k]), records, now))
      ensures PacketTurnDone(old(View()), k, records, now, made, View())
    {
      hide Sound, Grown, SlotKept, CacheOk, PacketApplied, Guest, OthersKeptInStep, DispatchedSearch, AllTold,
           AllSettled, AllHonest, NoRevival, AllMarked, Delivered, SearchDone, PacketTurnDone, Undeceived, PacketTokens;
      SoundSearch(searches, Accounts(), clock, k);
      ghost var c, heard, view := Cache(searches[k], nextToken), log, View();
      if AllSettled(searches[k], log) {
        PacketHonestExact(c, records, now, log);
        if NoRevival(records) { NoRevivalUndeceived(c, records, now, log); }
      }
      ApplyPacket(k, records, now);
      ghost var applyView := View();
      ghost var applied, mid := searches[k], Accounts();
      SoundSearch(searches, Accounts(), clock, k);
      DispatchSearchChanges(k);
      OthersUnaffected(k, old(searches), applied, old(log), searches, log, old(generation));
      GrownOn(old(Accounts()), mid, Accounts());
      PacketTurnIs(view, k, records, now, applyView, made, View());
      SoundSlots(searches, Accounts(), clock);
      if !SameSearch(c.search, searches[k]) {
        EmptySettled(searches[k], old(generation), log, now);
      } else if AllSettled(c.search, heard) && AllSettled(searches[k], log) {
        DeceivedStays(c, records, now, heard, searches[k], log);
      }
    }

    /** s3e_zero_conf_process_packet, as far as searches are concerned. */
    method ProcessPacket(data: seq<byte>, now: u64)
      requires Valid() && clock <= now
      modifies this`searches, this`generation, this`nextToken, this`retired, this`depth, this`inFlight, this`frees,
               this`owner, this`log, this`calls, this`made, this`clock
      ensures Valid() && depth == old(depth) && inFlight == old(inFlight) && old(clock) <= clock <= now
      ensures PacketDone(old(Now()), data, now, Now())
    {
      hide PacketEffect, AtRest, InStep;
      if data == [] {
        return;
      }
      var status, packet := ParsePacket(data);
      if status != Status.Ok || packet.header.flags < 0x8000 {
        return;
      }
      ParsedPacket(data);
      ProcessResponse(packet.records, now);
    }

    /** One slot in the loop over the searches. */
    method ProcessSlot(k: nat, records: seq<Record>, now: u64)
      requires Valid() && k < MAX_SEARCHES && clock == now && AllParsed(records)
      modifies this`searches, this`generation, this`nextToken, this`retired, this`depth, this`inFlight, this`frees,
               this`owner, this`log, this`calls, this`made
      ensures Valid() && depth == old(depth) && inFlight == old(inFlight) && Grown(old(Accounts()), Accounts())
      ensures OthersKeptInStep(k, old(searches), old(log), searches, log, old(generation))
      ensures PacketEffect(old(searches[k]), searches[k], records, now) && AllMarked(searches[k])
      ensures SlotTurned(old(searches[k]), searches[k], old(generation))
      ensures NoRevival(records) && AllSettled(old(searches[k]), old(log)) ==> AllSettled(searches[k], log)
      ensures AllSettled(old(searches[k]), old(log)) ==> SlotSettled(old(searches[k]), searches[k], records, now, log)
      ensures if old(searches[k].inUse) then PacketTurnDone(old(View()), k, records, now, made, View())
              else View() == old(View())
    {
      hide Sound, Grown, Guest, AllSettled, AllMarked, NoRevival, PacketEffect, AllParsed, OthersKeptInStep, Delivered,
           PacketTurnDone, Undeceived;
      SoundSlots(searches, Accounts(), clock);
      if searches[k].inUse {
        ProcessSearch(k, records, now);
      } else {
        IdleEffect(searches[k], searches[k], records, now);
        NothingDone(k, searches, log, generation);
        GrownNone(Accounts());
        IdleSettled(searches[k], log);
      }
    }

    /** The loop over the searches for a response. */
    method ProcessResponse(records: seq<Record>, now: u64)
      requires Valid() && clock <= now && AllParsed(records)
      modifies this`searches, this`generation, this`nextToken, this`retired, this`depth, this`inFlight, this`frees,
               this`owner, this`log, this`calls, this`made, this`clock
      ensures Valid() && depth == old(depth) && inFlight == old(inFlight) && clock == now
      ensures Grown(old(Accounts()), Accounts())
      ensures ResponseDone(old(Now()), records, now, Now())
      ensures old(AtRest(Now())) ==> AtRest(Now())
      ensures NoRevival(records) && old(InStep(Now())) ==> InStep(Now())
    {
      hide Sound, Grown, Guest, AllSettled, AllMarked, NoRevival, PacketEffect, SlotKept, PassedPacket, AllParsed,
           OthersKeptInStep, TokensExact, Delivered, Marked, SettledAll, PacketTurnDone, PacketReaches, PassedSettled,
           Undeceived, SlotSettled, NoneDeceived, PacketFrom, SlotTurned, NoneWaiting, AtRest, LastTime;
      LaterValid(now);
      SoundSlots(searches, Accounts(), clock);
      ghost var ss, g, view := searches, generation, View();
      LoopsBegin(view, 0, 0, records, now, made);
      if SettledAll(searches, log) { SettledBegins(ss, records, now, log); }
      if AtRest(Now()) { RestIsMarked(Now()); }
      SoundParts(searches, Accounts(), clock);
      PassBegins(ss, Accounts(), records, now);
      GrownNone(Accounts());
      for k := 0 to MAX_SEARCHES
        invariant Valid() && depth == old(depth) && inFlight == old(inFlight) && clock == now
        invariant Grown(old(Accounts()), Accounts())
        invariant PassedPacket(ss, searches, k, records, now, g)
        invariant old(Marked(searches)) ==> Marked(searches)
        invariant NoRevival(records) && old(SettledAll(searches, log)) ==> SettledAll(searches, log)
        invariant old(SettledAll(searches, log)) ==> PassedSettled(ss, searches, k, records, now, log)
        invariant PacketReaches(view, k, records, now, made, View())
      {
        ghost var before, books, seen := searches, Accounts(), View();
        SoundSlots(searches, Accounts(), clock);
        if old(SettledAll(searches, log)) { NotYetPassed(ss, before, k, records, now, log); }
        ProcessSlot(k, records, now);
        SoundSlots(searches, Accounts(), clock);
        TurnKept(k, before, books.log, searches, log, books.generation);
        GrownOn(old(Accounts()), books, Accounts());
        if old(SettledAll(searches, log)) {
          PassedBounds(ss, before, k, records, now, g);
          SettledTurn(ss, before, books.log, searches, log, k, records, now, g, books.generation);
        }
        PacketTurn(ss, before, searches, k, records, now, g, books.generation);
        PacketNext(view, k, records, now, books.made, seen, made, View());
      }
      PassEnds(ss, searches, records, now, g);
      SoundSlots(searches, Accounts(), clock);
      PacketOver(view, records, now, made, View());
      Rest();
      if old(SettledAll(searches, log)) { SettledEnds(ss, searches, records, now, log); }
    }

    /** What is marked is exact: the accounts say so. */
    ghost method Rest()
      requires Valid()
      ensures Marked(searches) ==> AtRest(Now())
      ensures SettledAll(searches, log) ==> InStep(Now())
    {
      hide Sound, Marked, SettledAll, TokensExact;
      if SettledAll(searches, log) { SettledMarked(searches, log); }
      if Marked(searches) { RestingTokens(searches, Accounts(), clock); }
    }

    // ---------- Expiry ----------

    /** One search's turn in expire_discovered. */
    method ExpireSearch(k: nat, now: u64)
      requires Valid() && k < MAX_SEARCHES && searches[k].inUse && now <= clock
      modifies this`searches, this`generation, this`nextToken, this`retired, this`depth, this`inFlight, this`frees,
               this`owner, this`log, this`calls, this`made
      ensures Valid() && depth == old(depth) && inFlight == old(inFlight) && Grown(old(Accounts()), Accounts())
      ensures OthersKeptInStep(k, old(searches), old(log), searches, log, old(generation))
      ensures SameSearch(old(searches[k]), searches[k]) || SlotKept(EmptySearch(), searches[k], old(generation))
      ensures ExpiryEffect(old(searches[k]), searches[k], now) && AllFresh(searches[k], now)
      ensures var applied := FollowedUpSearch(ExpiredSearch(old(searches[k]), now), now);
              SameSearch(old(searches[k]), searches[k]) ==> AllTold(applied, searches[k], old(log), log)
      ensures AllMarked(searches[k])
      ensures AllSettled(old(searches[k]), old(log)) ==> AllSettled(searches[k], log)
      ensures ExpiryTurnDone(old(View()), k, now, made, View())
    {
      hide Sound, SlotKept, CacheOk, Guest, OthersKeptInStep, DispatchedSearch, AllTold, AllSettled, AllHonest,
           AllFresh, ExpiredSearch, FollowedUpSearch, SearchDone, ExpiryTurnDone;
      SoundSearch(searches, Accounts(), clock, k);
      ghost var before, g, view := searches[k], generation, View();
      if AllSettled(searches[k], log) {
        ExpiryHonest(searches[k], now, log);
        FollowUpHonest(ExpiredSearch(searches[k], now), now, log);
      }
      ApplyExpiry(k, now);
      ghost var applied, applyView := searches[k], View();
      DispatchSearchChanges(k);
      ExpiryTurnIs(view, k, now, applyView, made, View());
      OthersUnaffected(k, old(searches), applied, old(log), searches, log, old(generation));
      SoundSearch(searches, Accounts(), clock, k);
      if SameSearch(before, searches[k]) {
        ExpiryLeavesFresh(before, searches[k], now, clock);
      } else {
        EmptySettled(searches[k], g, log, now);
      }
    }

    /** The expiry loops and the follow-up queries of one search. */
    method ApplyExpiry(k: nat, now: u64)
      requires Valid() && k < MAX_SEARCHES && searches[k].inUse && now <= clock
      modifies this`searches
      ensures Valid() && SameIdentity(old(searches[k]), searches[k])
      ensures searches == old(searches)[k := FollowedUpSearch(ExpiredSearch(old(searches[k]), now), now)]
    {
      assert CacheOk(searches[k], clock);
      hide Accounted, CacheOk, ExpiredSearch, FollowedUpSearch;
      ghost var ss := searches;
      ExpiryAccounted(ss, k, now, clock, Accounts());
      var s := ExpireRecords(searches[k], now);
      FollowUpAccounted(ss[k := s], k, now, clock, Accounts());
      var queries;
      s, queries := SendFollowUps(s, now);
      assert ss[k := ExpiredSearch(ss[k], now)][k := s] == ss[k := s];
      SearchStored(searches, k, s, clock);
      searches := searches[k := s];
    }

    /** expire_discovered: afterwards nothing that is held has expired at `now`, and no entry is without records. */
    method ExpireDiscovered(now: u64)
      requires Valid() && now <= clock
      modifies this`searches, this`generation, this`nextToken, this`retired, this`depth, this`inFlight, this`frees,
               this`owner, this`log, this`calls, this`made
      ensures Valid() && depth == old(depth) && inFlight == old(inFlight)
      ensures ExpiryDone(old(Now()), now, Now())
    {
      hide Sound, Grown, Guest, AllSettled, AllMarked, ExpiryEffect, SlotKept, CacheOk, PassedExpiry, AllFresh,
           NoEntries, OthersKeptInStep, TokensExact, Delivered, Marked, SettledAll, ExpiryTurnDone, ExpiryReaches;
      ghost var ss, g, view := searches, generation, View();
      LoopsBegin(view, 0, 0, [], now, made);
      SoundSlots(searches, Accounts(), clock);
      SoundParts(searches, Accounts(), clock);
      PassBegins(ss, Accounts(), [], now);
      GrownNone(Accounts());
      for k := 0 to MAX_SEARCHES
        invariant Valid() && depth == old(depth) && inFlight == old(inFlight)
        invariant Grown(old(Accounts()), Accounts())
        invariant PassedExpiry(ss, searches, k, now, g)
        invariant old(Marked(searches)) ==> Marked(searches)
        invariant old(SettledAll(searches, log)) ==> SettledAll(searches, log)
        invariant ExpiryReaches(view, k, now, made, View())
      {
        ghost var before, books, seen := searches, Accounts(), View();
        SoundSearch(searches, Accounts(), clock, k);
        if searches[k].inUse {
          ExpireSearch(k, now);
        } else {
          IdleEffect(before[k], searches[k], [], now);
          IdleFresh(searches[k], clock, now);
          NothingDone(k, searches, log, generation);
          GrownNone(books);
        }
        TurnKept(k, before, books.log, searches, log, books.generation);
        GrownOn(old(Accounts()), books, Accounts());
        ExpiryTurn(ss, before, searches, k, now, g, books.generation);
        ExpiryNext(view, k, now, books.made, seen, made, View());
      }
      PassEnds(ss, searches, [], now, g);
      SoundSlots(searches, Accounts(), clock);
      ExpiryOver(view, now, made, View());
      Rest();
    }

    // ---------- The pump ----------

    /** The repeated queries of the pump: every search asks at most once in two seconds. */
    method QuerySearches(now: u64) returns (queries: seq<Query>)
      requires Valid()
      modifies this`searches
      ensures Valid()
      ensures searches == RequeriedAll(old(searches), now)
      ensures queries == Requeries(old(searches), now)
    {
      hide Sound, CacheOk, NoEntries, Delivered, RequeriedAll;
      SoundSlots(searches, Accounts(), clock);
      ghost var ss := searches;
      queries := [];
      for k := 0 to MAX_SEARCHES
        invariant Valid() && |searches| == |ss|
        invariant searches == RequeriedAll(ss[..k], now) + ss[k..]
        invariant queries == Requeries(ss[..k], now)
      {
        assert ss[..k + 1][..k] == ss[..k];
        RequeriedNext(ss, k, now);
        if !searches[k].inUse {
          continue;
        }
        if now >= searches[k].nextQuery {
          queries := queries + [Query(searches[k].serviceFqdn, TYPE_PTR)];
          RequeriedOk(searches, k, now, Accounts(), clock);
          searches := searches[k := searches[k].(nextQuery := now + QUERY_INTERVAL)];
        }
      }
      assert ss[..MAX_SEARCHES] == ss && searches == RequeriedAll(ss, now);
    }

    /** s3e_zero_conf_pump, as far as searches are concerned: at most 32 received packets, then expiry at the time the
        pump began, then the queries that are due. Inside a callback it does nothing. */
    method Pump(received: seq<(seq<byte>, u64)>, now: u64) returns (queries: seq<Query>)
      requires Valid() && clock <= now && Ordered(received, now)
      modifies this
      ensures Valid() && depth == old(depth) && inFlight == old(inFlight) && pumping == old(pumping)
      ensures old(clock) <= clock && clock <= LastTime(received, now)
      ensures old(pumping || depth > 0) ==> Now() == old(Now()) && calls == old(calls) && queries == []
      ensures !old(pumping || depth > 0) ==> PumpDone(old(Now()), received, now, queries, Now())
    {
      hide Sound, Ordered, LastTime, PacketDone, Received, ExpiryDone, RequeriedAll, Requeries, Delivered, Takes;
      queries := [];
      LastTimeLater(received, now);
      if pumping || depth > 0 {
        return;
      }
      pumping := true;
      ghost var n, trail := ReceivePackets(received, now);
      TrailEnds(old(Now()), received, n, trail);
      ExpireDiscovered(now);
      ghost var expired := Now();
      queries := QuerySearches(now);
      pumping := false;
      assert Takes(received, n) && Received(old(Now()), received, n, trail) && ExpiryDone(trail[n], now, expired);
    }

    /** The receive loop of the pump: 32 packets at most, and none after an empty one. */
    method ReceivePackets(received: seq<(seq<byte>, u64)>, now: u64)
      returns (ghost taken: nat, ghost trail: seq<Moment>)
      requires Valid() && clock <= now && Ordered(received, now)
      modifies this`searches, this`generation, this`nextToken, this`retired, this`depth, this`inFlight, this`frees,
               this`owner, this`log, this`calls, this`made, this`clock
      ensures Valid() && depth == old(depth) && inFlight == old(inFlight) && now <= clock <= LastTime(received, now)
      ensures Takes(received, taken) && Received(old(Now()), received, taken, trail) && trail[taken] == Now()
    {
      hide Sound, PacketDone, Delivered;
      var count: nat := 0;
      ghost var reached := now;
      LaterValid(now);
      trail := [Now()];
      while count < MAX_PUMPED && count < |received| && received[count].0 != []
        invariant Valid() && depth == old(depth) && inFlight == old(inFlight)
        invariant count <= |received| && count <= MAX_PUMPED && now <= clock
        invariant clock <= reached <= LastTime(received, now)
        invariant forall j :: count <= j < |received| ==> reached <= received[j].1
        invariant forall j :: 0 <= j < count ==> received[j].0 != []
        invariant Received(old(Now()), received, count, trail) && trail[count] == Now()
      {
        LastTimeBounds(received, now, count);
        reached := received[count].1;
        ProcessPacket(received[count].0, received[count].1);
        count := count + 1;
        trail := trail + [Now()];
      }
      taken := count;
    }

    ghost method LaterValid(now: u64)
      requires Valid() && clock <= now
      modifies this`clock
      ensures Valid() && clock == now
    {
      LaterSound(searches, clock, now);
      clock := now;
    }

    // ---------- Shutdown and whole runs ----------

    /** s3e_zero_conf_shutdown, as far as searches are concerned. Outside callbacks every token that was ever made
        has then been freed exactly once. */
    method Shutdown()
      requires Valid()
      modifies this
      ensures Valid() && depth == old(depth) && inFlight == old(inFlight) && nextToken == old(nextToken)
      ensures Grown(old(Accounts()), Accounts()) && OnlyStops(old(log), log)
      ensures forall k :: 0 <= k < MAX_SEARCHES ==> searches[k] == EmptySearch()
      ensures old(depth) > 0 ==> frees == old(frees)
      ensures old(depth) == 0 && old(inFlight) == {} ==>
        NoDuplicates(frees) && forall t :: t in frees <==> 1 <= t < nextToken
    {
      hide LogOk, TokensHeard, CacheOk, LooseOwn, EntriesOwn, SameGuest, KnownHeld, Delivered;
      for k := 0 to MAX_SEARCHES
        invariant AllSound() && depth == old(depth) && inFlight == old(inFlight) && nextToken == old(nextToken)
        invariant NoneWaiting() && calls == old(calls) && Grown(old(Accounts()), Accounts()) && OnlyStops(old(log), log)
        invariant depth > 0 ==> frees == old(frees)
        invariant forall m :: 0 <= m < k ==> searches[m] == EmptySearch()
      {
        ClearSearch(k);
      }
      FlushRetired();
      pumping := false;
      StopsDeliverNothing(old(log), log);
      if depth == 0 && inFlight == {} {
        AllFreedOnce(searches, Accounts().loose, owner, nextToken);
      }
    }

    /** A public call from outside a callback. */
    method Call(op: GuestOp)
      requires Valid()
      modifies this`searches, this`generation, this`retired, this`inFlight, this`frees, this`owner, this`log
      ensures Valid() && inFlight == old(inFlight) && CallDone(old(Now()), op, Now())
    {
      hide AllSound, NoEntries, Guest, Delivered, StartDone, Undisturbed, AllMarked, AllSettled, TokensExact;
      match op {
        case StartOp(serviceType, domain, found, update, lost, socketOk, now) =>
          var _ := StartSearch(serviceType, domain, found, update, lost, socketOk, now);
        case StopOp(handle) =>
          StopSearch(handle);
      }
      StopsDeliverNothing(old(log), log);
      if old(Marked(searches)) { UndisturbedMarked(old(searches), searches, old(generation)); }
      if old(SettledAll(searches, log)) { StillSettled(old(searches), old(log), searches, log, old(generation)); }
      Rest();
    }

    /** Any run of calls from outside, each doing what its action says; see RunLasts for what all of them keep. */
    method Run(actions: seq<Action>) returns (ghost moments: seq<Moment>)
      requires Valid() && depth == 0 && inFlight == {} && !pumping && InOrder(actions, clock)
      modifies this
      ensures Valid() && depth == 0 && inFlight == {} && !pumping
      ensures RunDone(actions, moments) && moments[0] == old(Now()) && moments[|actions|] == Now()
      ensures Grown(old(Accounts()), Accounts()) && (old(AtRest(Now())) ==> AtRest(Now()))
      ensures (forall j :: 0 <= j < |actions| ==> HarmlessAction(actions[j])) && old(InStep(Now())) ==> InStep(Now())
    {
      hide Sound, AtRest, InStep, PacketDone, PumpDone, CallDone, Ordered, LastTime, Delivered, HarmlessAction;
      var rest := actions;
      moments := [Now()];
      while rest != []
        invariant Valid() && depth == 0 && inFlight == {} && !pumping && InOrder(rest, clock)
        invariant |rest| <= |actions| && rest == actions[|actions| - |rest|..]
        invariant |moments| == |actions| - |rest| + 1 && RunDone(actions[..|actions| - |rest|], moments)
        invariant moments[0] == old(Now()) && moments[|moments| - 1] == Now()
        decreases |rest|
      {
        var action := rest[0];
        rest := rest[1..];
        match action {
          case PacketAction(data, now) =>
            ProcessPacket(data, now);
            InOrderEarlier(rest, now, clock);
          case PumpAction(received, now) =>
            var queries := Pump(received, now);
            InOrderEarlier(rest, LastTime(received, now), clock);
          case CallAction(op) =>
            Call(op);
        }
        moments := moments + [Now()];
      }
      assert actions[..|actions|] == actions;
      RunLasts(actions, moments, |actions|);
    }
  }

  // ---------- Small steps ----------

  lemma RestIsMarked(x: Moment)
    requires AtRest(x)
    ensures Marked(x.searches)
  {
  }

  lemma RotatedIs(x: Scene, k: nat, i: nat, ss: seq<Search>)
    requires HasEntry(x, k, i)
    requires ss == x.searches[k := WithEntry(x.searches[k], i, Replaced(x.searches[k].discovered[i], x.next))]
    ensures Rotated(x, k, i) == Scene(ss, x.generation, x.next + 1, x.log)
  {
  }

  lemma IdleTokens(s: Search, clock: u64)
    requires SearchOk(s, clock) && !s.inUse
    ensures forall i :: 0 <= i < |s.discovered| ==> s.discovered[i].token.None?
  {
  }

  lemma EntryStored(s: Search, i: nat, e: Entry)
    requires i < |s.discovered|
    ensures var t := WithEntry(s, i, e);
            && t == s.(discovered := t.discovered) && |t.discovered| == |s.discovered| && t.discovered[i] == e
            && forall j :: 0 <= j < |s.discovered| && j != i ==> t.discovered[j] == s.discovered[j]
  {
  }

  /** A slot that is not in use has no turn. */
  lemma NothingDone(k: nat, ss: seq<Search>, log: seq<Event>, g: nat)
    requires k < |ss| && !ss[k].inUse
    ensures OthersKeptInStep(k, ss, log, ss, log, g) && AllMarked(ss[k]) && AllSettled(ss[k], log)
    ensures forall m :: 0 <= m < |ss| ==> SlotKept(ss[m], ss[m], g)
  {
    hide Guest, Settled;
  }

  lemma NothingSaid(ss: seq<Search>, k: nat, b: Books)
    requires k < |ss|
    ensures OnlyAbout(ss[k], b.next, b.log, b.log)
    ensures forall m :: 0 <= m < |ss| ==> SlotKept(ss[m], ss[m], b.generation)
  {
    hide Guest;
  }

  lemma GoneMarked(t: Search, g: nat, g': nat)
    requires SlotKept(EmptySearch(), t, g') && g <= g'
    ensures AllMarked(t) && SlotKept(EmptySearch(), t, g)
  {
  }

  /** What one turn keeps of all searches. */
  lemma TurnKept(k: nat, ss: seq<Search>, log: seq<Event>, tt: seq<Search>, log': seq<Event>, g: nat)
    requires k < |ss| && OthersKeptInStep(k, ss, log, tt, log', g) && AllMarked(tt[k])
    ensures |tt| == |ss| && (forall m :: 0 <= m < |ss| && m != k ==> SlotKept(ss[m], tt[m], g))
    ensures Marked(ss) ==> Marked(tt)
    ensures SettledAll(ss, log) && (AllSettled(ss[k], log) ==> AllSettled(tt[k], log')) ==> SettledAll(tt, log')
  {
    hide AllMarked, SlotKept, AllSettled;
    if Marked(ss) { TurnMarked(k, ss, log, tt, log', g); }
  }

  lemma TrailEnds(x: Moment, received: seq<(seq<byte>, u64)>, n: nat, trail: seq<Moment>)
    requires Received(x, received, n, trail)
    ensures |trail| == n + 1
  {
  }

  lemma RequeriedNext(ss: seq<Search>, k: nat, now: u64)
    requires k < |ss|
    ensures var before, after := RequeriedAll(ss[..k], now) + ss[k..], RequeriedAll(ss[..k + 1], now) + ss[k + 1..];
            && |before| == |after| == |ss| && before[k] == ss[k] && after == before[k := Requeried(ss[k], now)]
  {
    var before, after := RequeriedAll(ss[..k], now) + ss[k..], RequeriedAll(ss[..k + 1], now) + ss[k + 1..];
    forall m | 0 <= m < |ss|
      ensures after[m] == before[k := Requeried(ss[k], now)][m]
    {
    }
  }

  lemma RequeriedOk(ss: seq<Search>, k: nat, now: u64, b: Books, clock: u64)
    requires Sound(ss, b, clock) && k < |ss| && ss[k].inUse
    ensures Sound(ss[k := ss[k].(nextQuery := now + QUERY_INTERVAL)], b, clock)
  {
    var s := ss[k].(nextQuery := now + QUERY_INTERVAL);
    assert CacheOk(s, clock);
    hide Accounted, CacheOk;
    SearchReplaced(ss, k, s, b);
    SearchStored(ss, k, s, clock);
  }

  lemma IdleFresh(s: Search, clock: u64, now: u64)
    requires !s.inUse && SearchOk(s, clock)
    ensures AllFresh(s, now)
  {
  }

  /** An empty search is fine whatever its names and callbacks. */
  lemma EmptySearchOk(s: Search, clock: u64)
    requires s.discovered == EmptySearch().discovered && s.addresses == EmptySearch().addresses
    ensures SearchOk(s, clock) && NoEntries(s)
  {
  }
}
