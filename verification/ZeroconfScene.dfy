/** What dispatches do to the searches and what they tell, as functions of the state before and of the calls that every
    callback makes. */
module ZeroconfScene {
  import opened Options
  import opened WireNames
  import opened WireParse
  import opened ZeroconfText
  import opened ZeroconfCache
  import opened ZeroconfGuest
  import opened ZeroconfSteps

  const QUERY_INTERVAL := 2000

  /** What callbacks can see or change: the searches, the counters and the notifications. */
  datatype Scene = Scene(searches: seq<Search>, generation: nat, next: nat, log: seq<Event>)
  {
    function With(k: nat, s: Search): Scene
      requires k < |searches|
    {
      this.(searches := searches[k := s])
    }

    /** The search of that generation still runs in slot k. */
    predicate Runs(k: nat, generation: nat) {
      k < |searches| && searches[k].inUse && searches[k].generation == generation
    }
  }

  // ---------- Calls of the guest ----------

  function NewSearch(generation: nat, serviceType: seq<byte>, domain: seq<byte>, fqdn: seq<byte>,
                     found: bool, update: bool, lost: bool, nextQuery: nat): Search {
    EmptySearch().(inUse := true, generation := generation, serviceType := serviceType, domain := domain,
                   serviceFqdn := fqdn, found := found, update := update, lost := lost, nextQuery := nextQuery)
  }

  /** The three names of a search: type, domain, and both joined. */
  function SearchNames(serviceType: seq<byte>, domain: seq<byte>): Option<(seq<byte>, seq<byte>, seq<byte>)> {
    var t, d := Component(serviceType, [], MAX_NAME), Component(domain, LOCAL, MAX_NAME);
    if t.None? || d.None? || Joined(t.value, d.value).None? then None
    else Some((t.value, d.value, Joined(t.value, d.value).value))
  }

  /** The first free slot. */
  function FreeSearch(ss: seq<Search>): (k: nat)
    ensures k <= |ss| && (k < |ss| ==> !ss[k].inUse)
    ensures forall m :: 0 <= m < k ==> ss[m].inUse
  {
    if ss == [] || !ss[0].inUse then 0
    else
      var k := FreeSearch(ss[1..]);
      assert forall m :: 0 < m < 1 + k ==> ss[m] == ss[1..][m - 1];
      1 + k
  }

  lemma FreeSearchIs(ss: seq<Search>, k: nat)
    requires k <= |ss| && (k < |ss| ==> !ss[k].inUse) && forall m :: 0 <= m < k ==> ss[m].inUse
    ensures FreeSearch(ss) == k
  {
  }

  /** What a start leaves in a free slot: a running search, or the names that were copied before it failed. */
  function Attempt(op: GuestOp, generation: nat): Search
    requires op.StartOp?
  {
    var t, d := Component(op.serviceType, [], MAX_NAME), Component(op.domain, LOCAL, MAX_NAME);
    if t.None? then EmptySearch()
    else if d.None? then EmptySearch().(serviceType := t.value)
    else if Joined(t.value, d.value).None? then EmptySearch().(serviceType := t.value, domain := d.value)
    else if !op.socketOk then EmptySearch()
    else NewSearch(generation, t.value, d.value, Joined(t.value, d.value).value, op.found, op.update, op.lost,
                   op.now + QUERY_INTERVAL)
  }

  /** One public call. */
  function Performed(x: Scene, op: GuestOp): (y: Scene)
    ensures |y.searches| == |x.searches| && y.next == x.next && x.generation <= y.generation
  {
    match op
    case StopOp(handle) =>
      if handle < |x.searches| && x.searches[handle].inUse
      then x.With(handle, EmptySearch()).(log := x.log + [Stopped(x.searches[handle].generation)])
      else x
    case StartOp(_, _, _, _, _, _, _) =>
      var k, s := FreeSearch(x.searches), Attempt(op, x.generation + 1);
      if k == |x.searches| then x
      else x.With(k, s).(generation := if s.inUse then x.generation + 1 else x.generation)
  }

  function PerformedAll(x: Scene, ops: seq<GuestOp>): (y: Scene)
    ensures |y.searches| == |x.searches| && y.next == x.next && x.generation <= y.generation
  {
    if ops == [] then x else Performed(PerformedAll(x, ops[..|ops| - 1]), ops[|ops| - 1])
  }

  lemma PerformedMore(x: Scene, ops: seq<GuestOp>, op: GuestOp)
    ensures PerformedAll(x, ops + [op]) == Performed(PerformedAll(x, ops), op)
  {
    assert (ops + [op])[..|ops|] == ops;
  }

  // ---------- Notifications ----------

  /** The calls the n-th callback made. */
  function CallsAt(made: seq<seq<GuestOp>>, n: nat): seq<GuestOp> {
    if n < |made| then made[n] else []
  }

  /** A notification: recorded, and then the calls of the callback it is delivered to. `made` lists the calls of all
      callbacks ever invoked. */
  ghost function Notified(x: Scene, event: Event, made: seq<seq<GuestOp>>): (y: Scene)
    ensures |y.searches| == |x.searches| && y.next == x.next && x.generation <= y.generation
  {
    var y := x.(log := x.log + [event]);
    if event.Stopped? || !event.delivered then y else PerformedAll(y, CallsAt(made, |Delivered(x.log)|))
  }

  /** Notifications of one search, as long as it runs. */
  ghost function TellAll(x: Scene, k: nat, generation: nat, events: seq<Event>, made: seq<seq<GuestOp>>): (y: Scene)
    ensures |y.searches| == |x.searches| && y.next == x.next && x.generation <= y.generation
    decreases |events|
  {
    if events == [] || !x.Runs(k, generation) then x
    else TellAll(Notified(x, events[0], made), k, generation, events[1..], made)
  }

  // ---------- Dispatch ----------

  function TokenOf(e: Entry): nat {
    if e.token.Some? then e.token.value else 0
  }

  /** What the dispatch of an entry tells; a rotated entry is found again under the next token. */
  function Tells(s: Search, e: Entry, next: nat): seq<Event> {
    if !e.inUse then []
    else if e.remove || !e.Complete() then
      if e.notified then [Lost(s.generation, TokenOf(e), s.lost)] else []
    else if !e.notified then [Found(s.generation, TokenOf(e), e, s.found)]
    else if e.endpointChanged then
      [Lost(s.generation, TokenOf(e), s.lost), Found(s.generation, next, Replaced(e, next), s.found)]
    else if e.txtChanged then [Updated(s.generation, TokenOf(e), e.txt, s.update)]
    else []
  }

  /** One turn of the dispatch loop: the entry as it will be, and the notifications about it. */
  ghost function EntryDispatched(x: Scene, k: nat, i: nat, made: seq<seq<GuestOp>>): (y: Scene)
    requires k < |x.searches| && i < |x.searches[k].discovered|
    ensures |y.searches| == |x.searches| && x.generation <= y.generation
  {
    var s, e := x.searches[k], x.searches[k].discovered[i];
    TellAll(x.With(k, WithEntry(s, i, DispatchedEntry(e, TokenAfter(e, x.next)))).(next := x.next + One(Rotates(e))),
            k, s.generation, Tells(s, e, x.next), made)
  }

  /** The dispatch from entry i on, as long as the search runs. */
  ghost function DispatchedFrom(x: Scene, k: nat, generation: nat, i: nat, made: seq<seq<GuestOp>>): (y: Scene)
    ensures |y.searches| == |x.searches| && x.generation <= y.generation
    decreases MAX_DISCOVERED - i
  {
    if !x.Runs(k, generation) || i >= |x.searches[k].discovered| || i >= MAX_DISCOVERED then x
    else DispatchedFrom(EntryDispatched(x, k, i, made), k, generation, i + 1, made)
  }

  function PacketTokens(c: Cache, records: seq<Record>, now: u64): nat {
    FoldService(FoldPtr(c, records, now), records, now).nextToken
  }

  /** One search's turn with a packet. */
  ghost function PacketOn(x: Scene, k: nat, records: seq<Record>, now: u64, made: seq<seq<GuestOp>>): (y: Scene)
    requires k < |x.searches|
    ensures |y.searches| == |x.searches| && x.generation <= y.generation
  {
    var s, c := x.searches[k], Cache(x.searches[k], x.next);
    DispatchedFrom(x.With(k, PacketApplied(c, records, now)).(next := PacketTokens(c, records, now)),
                   k, s.generation, 0, made)
  }

  /** A packet on the searches from slot k on. */
  ghost function PacketFrom(x: Scene, k: nat, records: seq<Record>, now: u64, made: seq<seq<GuestOp>>): (y: Scene)
    ensures |y.searches| == |x.searches| && x.generation <= y.generation
    decreases |x.searches| - k
  {
    if k >= |x.searches| then x
    else PacketFrom(if x.searches[k].inUse then PacketOn(x, k, records, now, made) else x, k + 1, records, now, made)
  }

  /** One search's turn with an expiry. */
  ghost function ExpiryOn(x: Scene, k: nat, now: u64, made: seq<seq<GuestOp>>): (y: Scene)
    requires k < |x.searches|
    ensures |y.searches| == |x.searches| && x.generation <= y.generation
  {
    var s := x.searches[k];
    DispatchedFrom(x.With(k, FollowedUpSearch(ExpiredSearch(s, now), now)), k, s.generation, 0, made)
  }

  ghost function ExpiryFrom(x: Scene, k: nat, now: u64, made: seq<seq<GuestOp>>): (y: Scene)
    ensures |y.searches| == |x.searches| && x.generation <= y.generation
    decreases |x.searches| - k
  {
    if k >= |x.searches| then x
    else ExpiryFrom(if x.searches[k].inUse then ExpiryOn(x, k, now, made) else x, k + 1, now, made)
  }

  // ---------- Another search under the same generation ----------

  /** The scene y is x with another search in slot k, or the search is gone and both are the same. */
  predicate Swapped(x: Scene, y: Scene, k: nat, generation: nat, s: Search, t: Search) {
    && k < |x.searches| && generation <= x.generation
    && (if x.Runs(k, generation) then x.searches[k] == s && y == x.With(k, t) else y == x)
  }

  lemma PerformedSwapped(x: Scene, y: Scene, k: nat, generation: nat, s: Search, t: Search, op: GuestOp)
    requires Swapped(x, y, k, generation, s, t) && t.inUse && t.generation == generation
    ensures Swapped(Performed(x, op), Performed(y, op), k, generation, s, t)
  {
    hide Attempt;
    if x.Runs(k, generation) {
      match op {
        case StopOp(handle) =>
          if handle < |x.searches| && handle != k && x.searches[handle].inUse {
            assert Performed(y, op) == Performed(x, op).With(k, t);
          } else if handle == k {
            assert x.searches[k := t][k := EmptySearch()] == x.searches[k := EmptySearch()];
          }
        case StartOp(_, _, _, _, _, _, _) =>
          var m := FreeSearch(x.searches);
          FreeSearchIs(y.searches, m);
          if m < |x.searches| {
            var a := Attempt(op, x.generation + 1);
            assert x.searches[k := t][m := a] == x.searches[m := a][k := t];
          }
      }
    } else {
      AttemptNew(op, x.generation + 1);
    }
  }

  lemma AttemptNew(op: GuestOp, generation: nat)
    ensures op.StartOp? ==> Attempt(op, generation).inUse ==> Attempt(op, generation).generation == generation
  {
  }

  lemma {:induction false} AllSwapped(x: Scene, y: Scene, k: nat, generation: nat, s: Search, t: Search,
                                      ops: seq<GuestOp>)
    requires Swapped(x, y, k, generation, s, t) && t.inUse && t.generation == generation
    ensures Swapped(PerformedAll(x, ops), PerformedAll(y, ops), k, generation, s, t)
  {
    hide Performed, Swapped;
    if ops == [] {
    } else {
      var front, op := ops[..|ops| - 1], ops[|ops| - 1];
      AllSwapped(x, y, k, generation, s, t, front);
      PerformedSwapped(PerformedAll(x, front), PerformedAll(y, front), k, generation, s, t, op);
    }
  }

  lemma NotifiedSwapped(x: Scene, y: Scene, k: nat, generation: nat, s: Search, t: Search, event: Event,
                        made: seq<seq<GuestOp>>)
    requires Swapped(x, y, k, generation, s, t) && t.inUse && t.generation == generation
    ensures Swapped(Notified(x, event, made), Notified(y, event, made), k, generation, s, t)
  {
    hide PerformedAll;
    var x', y' := x.(log := x.log + [event]), y.(log := y.log + [event]);
    assert Swapped(x', y', k, generation, s, t);
    AllSwapped(x', y', k, generation, s, t, CallsAt(made, |Delivered(x.log)|));
  }

  // ---------- From what a dispatch does to what it amounts to ----------

  /** A notification told while the entry is not yet what it will be. */
  lemma TellOne(x: Scene, k: nat, mid: Search, done: Search, event: Event, made: seq<seq<GuestOp>>)
    requires k < |x.searches| && mid.inUse && done.inUse && mid.generation == done.generation <= x.generation
    ensures var y := Notified(x.With(k, mid), event, made);
            var z := TellAll(x.With(k, done), k, done.generation, [event], made);
            if y.Runs(k, done.generation) then y.searches[k] == mid && z == y.With(k, done) else z == y
  {
    hide Notified;
    var y, z := x.With(k, mid), x.With(k, done);
    assert y.searches[k := done] == z.searches;
    NotifiedSwapped(y, z, k, done.generation, mid, done, event, made);
    assert [event][1..] == [];
  }

  /** Two notifications, with a change of the entry in between. */
  lemma TellTwo(x: Scene, k: nat, lost: Search, found: Search, done: Search, first: Event, second: Event,
                made: seq<seq<GuestOp>>)
    requires k < |x.searches| && lost.inUse && found.inUse && done.inUse
    requires lost.generation == found.generation == done.generation <= x.generation
    ensures var y := Notified(x.With(k, lost), first, made);
            var z := TellAll(x.With(k, done), k, done.generation, [first, second], made);
            if y.Runs(k, done.generation) then
              && y.searches[k] == lost
              && var w := Notified(y.With(k, found), second, made);
                 if w.Runs(k, done.generation) then w.searches[k] == found && z == w.With(k, done) else z == w
            else z == y
  {
    hide Notified;
    var y, v := x.With(k, lost), x.With(k, done);
    assert y.searches[k := done] == v.searches;
    NotifiedSwapped(y, v, k, done.generation, lost, done, first, made);
    assert [first, second][1..] == [second];
    var y', v' := Notified(y, first, made), Notified(v, first, made);
    if y'.Runs(k, done.generation) {
      TellOne(y', k, found, done, second, made);
    }
  }

  lemma {:induction false} TellSwapped(x: Scene, y: Scene, k: nat, generation: nat, s: Search, t: Search,
                                       events: seq<Event>, made: seq<seq<GuestOp>>)
    requires Swapped(x, y, k, generation, s, t) && t.inUse && t.generation == generation
    ensures Swapped(TellAll(x, k, generation, events, made), TellAll(y, k, generation, events, made), k, generation, s,
                    t)
    decreases |events|
  {
    hide Notified;
    if events == [] || !x.Runs(k, generation) {
    } else {
      NotifiedSwapped(x, y, k, generation, s, t, events[0], made);
      TellSwapped(Notified(x, events[0], made), Notified(y, events[0], made), k, generation, s, t, events[1..], made);
    }
  }

  /** The scene in which entry i of slot k has become f. */
  function Stored(x: Scene, k: nat, i: nat, f: Entry): Scene
    requires k < |x.searches| && i < |x.searches[k].discovered|
  {
    x.With(k, WithEntry(x.searches[k], i, f))
  }

  /** A rotation: entry i of slot k has the next token, which nobody knows yet. */
  function Rotated(x: Scene, k: nat, i: nat): Scene
    requires k < |x.searches| && i < |x.searches[k].discovered|
  {
    Stored(x.(next := x.next + 1), k, i, Replaced(x.searches[k].discovered[i], x.next))
  }

  /** A rotation and its notification. */
  ghost function LostTold(x: Scene, k: nat, i: nat, made: seq<seq<GuestOp>>): (y: Scene)
    requires k < |x.searches| && i < |x.searches[k].discovered|
    ensures |y.searches| == |x.searches|
  {
    var s := x.searches[k];
    Notified(Rotated(x, k, i), Lost(s.generation, TokenOf(s.discovered[i]), s.lost), made)
  }

  /** A found notification, the entry marked before. */
  ghost function FoundTold(x: Scene, k: nat, i: nat, made: seq<seq<GuestOp>>): (y: Scene)
    requires k < |x.searches| && i < |x.searches[k].discovered|
    ensures |y.searches| == |x.searches|
  {
    var s, e := x.searches[k], x.searches[k].discovered[i];
    Notified(Stored(x, k, i, Told(e, e.token)), Found(s.generation, TokenOf(e), e, s.found), made)
  }

  ghost function UpdateTold(x: Scene, k: nat, i: nat, made: seq<seq<GuestOp>>): (y: Scene)
    requires k < |x.searches| && i < |x.searches[k].discovered|
    ensures |y.searches| == |x.searches|
  {
    var s, e := x.searches[k], x.searches[k].discovered[i];
    Notified(x, Updated(s.generation, TokenOf(e), e.txt, s.update), made)
  }

  predicate HasEntry(x: Scene, k: nat, i: nat) {
    && k < |x.searches| && i < |x.searches[k].discovered|
    && x.searches[k].inUse && x.searches[k].generation <= x.generation
  }

  /** An entry that is lost: rotated first, and what becomes of it stored after the notification. */
  lemma LostDone(x: Scene, k: nat, i: nat, made: seq<seq<GuestOp>>)
    requires HasEntry(x, k, i)
    requires var e := x.searches[k].discovered[i]; e.inUse && e.notified && (e.remove || !e.Complete())
    ensures var s, e := x.searches[k], x.searches[k].discovered[i];
            var done := DispatchedEntry(e, TokenAfter(e, x.next));
            var y := LostTold(x, k, i, made);
            if y.Runs(k, s.generation)
            then y.searches[k] == WithEntry(s, i, Replaced(e, x.next))
                 && EntryDispatched(x, k, i, made) == y.With(k, WithEntry(s, i, done))
            else EntryDispatched(x, k, i, made) == y
  {
    hide Notified, DispatchedEntry, Replaced;
    var s, e := x.searches[k], x.searches[k].discovered[i];
    TellOne(x.(next := x.next + 1), k, WithEntry(s, i, Replaced(e, x.next)),
            WithEntry(s, i, DispatchedEntry(e, TokenAfter(e, x.next))), Lost(s.generation, TokenOf(e), s.lost), made);
  }

  lemma SilentDone(x: Scene, k: nat, i: nat, made: seq<seq<GuestOp>>)
    requires HasEntry(x, k, i) && x.searches[k].discovered[i].inUse && !x.searches[k].discovered[i].notified
    requires x.searches[k].discovered[i].remove || !x.searches[k].discovered[i].Complete()
    ensures var e := x.searches[k].discovered[i];
            EntryDispatched(x, k, i, made) == Stored(x, k, i, DispatchedEntry(e, TokenAfter(e, x.next)))
  {
  }

  lemma UnusedDone(x: Scene, k: nat, i: nat, made: seq<seq<GuestOp>>)
    requires HasEntry(x, k, i) && !x.searches[k].discovered[i].inUse
    ensures EntryDispatched(x, k, i, made) == x
  {
    var s := x.searches[k];
    assert s.discovered[i := s.discovered[i]] == s.discovered && WithEntry(s, i, s.discovered[i]) == s;
    assert x.searches[k := s] == x.searches;
  }

  /** The notifications about a complete entry, before its flags are cleared. */
  ghost function CompleteTold(x: Scene, k: nat, i: nat, made: seq<seq<GuestOp>>): Scene
    requires HasEntry(x, k, i)
  {
    var s, e := x.searches[k], x.searches[k].discovered[i];
    TellAll(Stored(x.(next := x.next + One(Rotates(e))), k, i, Told(e, TokenAfter(e, x.next))), k, s.generation,
            Tells(s, e, x.next), made)
  }

  lemma CompleteDone(x: Scene, k: nat, i: nat, made: seq<seq<GuestOp>>)
    requires HasEntry(x, k, i)
    ensures var s, e := x.searches[k], x.searches[k].discovered[i];
            var y, done := CompleteTold(x, k, i, made), DispatchedEntry(e, TokenAfter(e, x.next));
            if y.Runs(k, s.generation)
            then y.searches[k] == WithEntry(s, i, Told(e, TokenAfter(e, x.next)))
                 && EntryDispatched(x, k, i, made) == y.With(k, WithEntry(s, i, done))
            else EntryDispatched(x, k, i, made) == y
  {
    hide TellAll, DispatchedEntry, Told, TokenAfter, Tells, Rotates;
    var s, e := x.searches[k], x.searches[k].discovered[i];
    var told, done := WithEntry(s, i, Told(e, TokenAfter(e, x.next))),
                      WithEntry(s, i, DispatchedEntry(e, TokenAfter(e, x.next)));
    var z := x.(next := x.next + One(Rotates(e)));
    assert z.searches[k := told][k := done] == z.searches[k := done];
    TellSwapped(z.With(k, told), z.With(k, done), k, s.generation, told, done, Tells(s, e, x.next), made);
  }

  /** A single notification. */
  lemma TellSingle(x: Scene, k: nat, generation: nat, event: Event, made: seq<seq<GuestOp>>)
    requires x.Runs(k, generation)
    ensures TellAll(x, k, generation, [event], made) == Notified(x, event, made)
  {
    hide Notified;
    assert [event][1..] == [];
  }

  /** A known entry that moved: lost under its old token and found under the next one. */
  lemma MovedTold(x: Scene, k: nat, i: nat, made: seq<seq<GuestOp>>)
    requires HasEntry(x, k, i)
    requires var e := x.searches[k].discovered[i];
             e.inUse && e.notified && !e.remove && e.Complete() && e.endpointChanged
    ensures var s, e := x.searches[k], x.searches[k].discovered[i];
            var y := LostTold(x, k, i, made);
            if y.Runs(k, s.generation)
            then y.searches[k] == WithEntry(s, i, Replaced(e, x.next))
                 && CompleteTold(x, k, i, made) == FoundTold(y, k, i, made)
            else CompleteTold(x, k, i, made) == y
  {
    hide Notified, Told, Replaced;
    var s, e := x.searches[k], x.searches[k].discovered[i];
    var lost, found := WithEntry(s, i, Replaced(e, x.next)), WithEntry(s, i, Told(e, Some(x.next)));
    KeepsGeneration(s, i, Replaced(e, x.next));
    KeepsGeneration(s, i, Told(e, Some(x.next)));
    TellTwo(x.(next := x.next + 1), k, lost, found, found, Lost(s.generation, TokenOf(e), s.lost),
            Found(s.generation, x.next, Replaced(e, x.next), s.found), made);
    var y := LostTold(x, k, i, made);
    if y.Runs(k, s.generation) {
      FoundStored(y, k, i, s, e, x.next);
      var w := Notified(y.With(k, found), Found(s.generation, x.next, Replaced(e, x.next), s.found), made);
      if w.Runs(k, s.generation) { assert w.searches[k := found] == w.searches; }
    }
  }

  lemma FoundStored(y: Scene, k: nat, i: nat, s: Search, e: Entry, next: nat)
    requires k < |y.searches| && i < |s.discovered| && y.searches[k] == WithEntry(s, i, Replaced(e, next))
    ensures var f := y.searches[k].discovered[i];
            && f == Replaced(e, next) && f.token == Some(next)
            && Stored(y, k, i, Told(f, f.token)) == y.With(k, WithEntry(s, i, Told(e, Some(next))))
  {
    EntryTwice(s, i, Replaced(e, next), Told(e, Some(next)));
    assert Told(Replaced(e, next), Some(next)) == Told(e, Some(next));
  }

  lemma CompleteFound(x: Scene, k: nat, i: nat, made: seq<seq<GuestOp>>)
    requires HasEntry(x, k, i)
    requires var e := x.searches[k].discovered[i]; e.inUse && !e.notified && !e.remove && e.Complete()
    ensures CompleteTold(x, k, i, made) == FoundTold(x, k, i, made)
  {
    hide Notified, Told;
    var s, e := x.searches[k], x.searches[k].discovered[i];
    TellSingle(Stored(x, k, i, Told(e, e.token)), k, s.generation, Found(s.generation, TokenOf(e), e, s.found), made);
  }

  /** A known entry that did not move: at most an update, and nothing to store. */
  lemma CompleteUpdated(x: Scene, k: nat, i: nat, made: seq<seq<GuestOp>>)
    requires HasEntry(x, k, i)
    requires var e := x.searches[k].discovered[i];
             e.inUse && e.notified && !e.remove && e.Complete() && !e.endpointChanged
    ensures CompleteTold(x, k, i, made)
         == if x.searches[k].discovered[i].txtChanged then UpdateTold(x, k, i, made) else x
  {
    hide Notified;
    var s, e := x.searches[k], x.searches[k].discovered[i];
    assert Told(e, e.token) == e && s.discovered[i := e] == s.discovered && WithEntry(s, i, e) == s;
    assert x.searches[k := s] == x.searches;
    TellSingle(x, k, s.generation, Updated(s.generation, TokenOf(e), e.txt, s.update), made);
  }

  lemma KeepsGeneration(s: Search, i: nat, e: Entry)
    requires i < |s.discovered|
    ensures WithEntry(s, i, e).inUse == s.inUse && WithEntry(s, i, e).generation == s.generation
  {
  }

  // The same, for whatever callbacks will be invoked later on.

  ghost predicate EntryDone(x: Scene, k: nat, i: nat, made: seq<seq<GuestOp>>, y: Scene) {
    HasEntry(x, k, i) && forall later | made <= later :: y == EntryDispatched(x, k, i, later)
  }

  ghost predicate CompleteSaid(x: Scene, k: nat, i: nat, made: seq<seq<GuestOp>>, y: Scene) {
    HasEntry(x, k, i) && forall later | made <= later :: y == CompleteTold(x, k, i, later)
  }

  ghost predicate LostSaid(x: Scene, k: nat, i: nat, made: seq<seq<GuestOp>>, y: Scene) {
    HasEntry(x, k, i) && forall later | made <= later :: y == LostTold(x, k, i, later)
  }

  ghost predicate FoundSaid(x: Scene, k: nat, i: nat, made: seq<seq<GuestOp>>, y: Scene) {
    HasEntry(x, k, i) && forall later | made <= later :: y == FoundTold(x, k, i, later)
  }

  ghost predicate UpdateSaid(x: Scene, k: nat, i: nat, made: seq<seq<GuestOp>>, y: Scene) {
    HasEntry(x, k, i) && forall later | made <= later :: y == UpdateTold(x, k, i, later)
  }

  lemma LostIsSaid(x: Scene, k: nat, i: nat, event: Event, made: seq<seq<GuestOp>>, y: Scene)
    requires HasEntry(x, k, i)
    requires var s := x.searches[k]; event == Lost(s.generation, TokenOf(s.discovered[i]), s.lost)
    requires forall later | made <= later :: y == Notified(Rotated(x, k, i), event, later)
    ensures LostSaid(x, k, i, made, y)
  {
    hide Notified, Rotated;
  }

  lemma LostThenDone(x: Scene, k: nat, i: nat, made: seq<seq<GuestOp>>, y: Scene)
    requires LostSaid(x, k, i, made, y)
    requires var e := x.searches[k].discovered[i]; e.inUse && e.notified && (e.remove || !e.Complete())
    ensures var s, e := x.searches[k], x.searches[k].discovered[i];
            if y.Runs(k, s.generation)
            then y.searches[k] == WithEntry(s, i, Replaced(e, x.next))
                 && EntryDone(x, k, i, made, y.With(k, WithEntry(s, i, DispatchedEntry(e, TokenAfter(e, x.next)))))
            else EntryDone(x, k, i, made, y)
  {
    hide EntryDispatched, LostTold, DispatchedEntry, Replaced, TokenAfter;
    forall later | made <= later { LostDone(x, k, i, later); }
    LostDone(x, k, i, made);
  }

  lemma SilentlyDone(x: Scene, k: nat, i: nat, made: seq<seq<GuestOp>>)
    requires HasEntry(x, k, i) && x.searches[k].discovered[i].inUse && !x.searches[k].discovered[i].notified
    requires x.searches[k].discovered[i].remove || !x.searches[k].discovered[i].Complete()
    ensures var e := x.searches[k].discovered[i];
            EntryDone(x, k, i, made, Stored(x, k, i, DispatchedEntry(e, TokenAfter(e, x.next))))
  {
    hide EntryDispatched, DispatchedEntry, TokenAfter;
    forall later | made <= later { SilentDone(x, k, i, later); }
  }

  lemma UnusedThenDone(x: Scene, k: nat, i: nat, made: seq<seq<GuestOp>>)
    requires HasEntry(x, k, i) && !x.searches[k].discovered[i].inUse
    ensures EntryDone(x, k, i, made, x)
  {
    hide EntryDispatched;
    forall later | made <= later { UnusedDone(x, k, i, later); }
  }

  lemma SaidThenDone(x: Scene, k: nat, i: nat, made: seq<seq<GuestOp>>, y: Scene)
    requires CompleteSaid(x, k, i, made, y)
    ensures var s, e := x.searches[k], x.searches[k].discovered[i];
            if y.Runs(k, s.generation)
            then y.searches[k] == WithEntry(s, i, Told(e, TokenAfter(e, x.next)))
                 && EntryDone(x, k, i, made, y.With(k, WithEntry(s, i, DispatchedEntry(e, TokenAfter(e, x.next)))))
            else EntryDone(x, k, i, made, y)
  {
    hide EntryDispatched, CompleteTold, DispatchedEntry, Told, TokenAfter;
    forall later | made <= later { CompleteDone(x, k, i, later); }
    CompleteDone(x, k, i, made);
  }

  lemma FoundIsSaid(x: Scene, k: nat, i: nat, made: seq<seq<GuestOp>>, y: Scene)
    requires FoundSaid(x, k, i, made, y)
    requires var e := x.searches[k].discovered[i]; e.inUse && !e.notified && !e.remove && e.Complete()
    ensures CompleteSaid(x, k, i, made, y)
  {
    hide CompleteTold, FoundTold;
    forall later | made <= later { CompleteFound(x, k, i, later); }
  }

  lemma UpdateIsSaid(x: Scene, k: nat, i: nat, made: seq<seq<GuestOp>>, y: Scene)
    requires HasEntry(x, k, i)
    requires var e := x.searches[k].discovered[i];
             e.inUse && e.notified && !e.remove && e.Complete() && !e.endpointChanged
    requires if x.searches[k].discovered[i].txtChanged then UpdateSaid(x, k, i, made, y) else y == x
    ensures CompleteSaid(x, k, i, made, y)
  {
    hide CompleteTold, UpdateTold;
    forall later | made <= later { CompleteUpdated(x, k, i, later); }
  }

  lemma MoveIsSaid(x: Scene, k: nat, i: nat, between: seq<seq<GuestOp>>, y: Scene, made: seq<seq<GuestOp>>, z: Scene)
    requires LostSaid(x, k, i, between, y) && between <= made
    requires var e := x.searches[k].discovered[i];
             e.inUse && e.notified && !e.remove && e.Complete() && e.endpointChanged
    requires if y.Runs(k, x.searches[k].generation) then FoundSaid(y, k, i, made, z) else z == y
    ensures CompleteSaid(x, k, i, made, z)
  {
    hide CompleteTold, LostTold, FoundTold, Replaced;
    forall later | made <= later
      ensures z == CompleteTold(x, k, i, later)
    {
      assert between <= later;
      MovedTold(x, k, i, later);
    }
  }

  /** A dispatch of the whole search in slot k. */
  ghost predicate SearchDone(x: Scene, k: nat, made: seq<seq<GuestOp>>, y: Scene) {
    && k < |x.searches|
    && forall later | made <= later :: y == DispatchedFrom(x, k, x.searches[k].generation, 0, later)
  }

  /** The dispatch loop at entry i. */
  ghost predicate DispatchReaches(x: Scene, k: nat, generation: nat, i: nat, made: seq<seq<GuestOp>>, y: Scene) {
    forall later | made <= later ::
      DispatchedFrom(x, k, generation, 0, later) == DispatchedFrom(y, k, generation, i, later)
  }

  lemma DispatchNext(x: Scene, k: nat, generation: nat, i: nat, made: seq<seq<GuestOp>>, y: Scene,
                     made': seq<seq<GuestOp>>, z: Scene)
    requires DispatchReaches(x, k, generation, i, made, y) && made <= made' && y.Runs(k, generation)
    requires i < MAX_DISCOVERED && EntryDone(y, k, i, made', z)
    ensures DispatchReaches(x, k, generation, i + 1, made', z)
  {
    hide EntryDispatched;
    forall later | made' <= later
      ensures DispatchedFrom(x, k, generation, 0, later) == DispatchedFrom(z, k, generation, i + 1, later)
    {
      assert made <= later && z == EntryDispatched(y, k, i, later);
    }
  }

  lemma DispatchOver(x: Scene, k: nat, generation: nat, i: nat, made: seq<seq<GuestOp>>, y: Scene)
    requires DispatchReaches(x, k, generation, i, made, y) && x.Runs(k, generation)
    requires !y.Runs(k, generation) || i == MAX_DISCOVERED
    ensures SearchDone(x, k, made, y)
  {
    hide EntryDispatched;
  }

  ghost predicate PacketTurnDone(x: Scene, k: nat, records: seq<Record>, now: u64, made: seq<seq<GuestOp>>, y: Scene) {
    k < |x.searches| && forall later | made <= later :: y == PacketOn(x, k, records, now, later)
  }

  lemma PacketTurnIs(x: Scene, k: nat, records: seq<Record>, now: u64, m: Scene, made: seq<seq<GuestOp>>, y: Scene)
    requires k < |x.searches| && x.searches[k].inUse && SearchDone(m, k, made, y)
    requires var c := Cache(x.searches[k], x.next);
             && m == x.With(k, PacketApplied(c, records, now)).(next := PacketTokens(c, records, now))
             && m.searches[k].generation == x.searches[k].generation
    ensures PacketTurnDone(x, k, records, now, made, y)
  {
    hide DispatchedFrom, PacketApplied, PacketTokens;
  }

  ghost predicate ExpiryTurnDone(x: Scene, k: nat, now: u64, made: seq<seq<GuestOp>>, y: Scene) {
    k < |x.searches| && forall later | made <= later :: y == ExpiryOn(x, k, now, later)
  }

  lemma ExpiryTurnIs(x: Scene, k: nat, now: u64, m: Scene, made: seq<seq<GuestOp>>, y: Scene)
    requires k < |x.searches| && x.searches[k].inUse && SearchDone(m, k, made, y)
    requires m == x.With(k, FollowedUpSearch(ExpiredSearch(x.searches[k], now), now))
    requires m.searches[k].generation == x.searches[k].generation
    ensures ExpiryTurnDone(x, k, now, made, y)
  {
    hide DispatchedFrom, FollowedUpSearch, ExpiredSearch;
  }

  /** The loop over the searches at slot k. */
  ghost predicate PacketReaches(x: Scene, k: nat, records: seq<Record>, now: u64, made: seq<seq<GuestOp>>, y: Scene) {
    && |y.searches| == |x.searches|
    && forall later | made <= later ::
         PacketFrom(x, 0, records, now, later) == PacketFrom(y, k, records, now, later)
  }

  lemma PacketNext(x: Scene, k: nat, records: seq<Record>, now: u64, made: seq<seq<GuestOp>>, y: Scene,
                   made': seq<seq<GuestOp>>, z: Scene)
    requires PacketReaches(x, k, records, now, made, y) && made <= made' && k < |x.searches| == |z.searches|
    requires if y.searches[k].inUse then PacketTurnDone(y, k, records, now, made', z) else z == y
    ensures PacketReaches(x, k + 1, records, now, made', z)
  {
    hide PacketOn;
    forall later | made' <= later
      ensures PacketFrom(x, 0, records, now, later) == PacketFrom(z, k + 1, records, now, later)
    {
      assert made <= later;
      if y.searches[k].inUse { assert z == PacketOn(y, k, records, now, later); }
    }
  }

  lemma PacketOver(x: Scene, records: seq<Record>, now: u64, made: seq<seq<GuestOp>>, y: Scene)
    requires PacketReaches(x, |x.searches|, records, now, made, y)
    ensures y == PacketFrom(x, 0, records, now, made)
  {
  }

  ghost predicate ExpiryReaches(x: Scene, k: nat, now: u64, made: seq<seq<GuestOp>>, y: Scene) {
    && |y.searches| == |x.searches|
    && forall later | made <= later :: ExpiryFrom(x, 0, now, later) == ExpiryFrom(y, k, now, later)
  }

  lemma ExpiryNext(x: Scene, k: nat, now: u64, made: seq<seq<GuestOp>>, y: Scene, made': seq<seq<GuestOp>>, z: Scene)
    requires ExpiryReaches(x, k, now, made, y) && made <= made' && k < |x.searches| == |z.searches|
    requires if y.searches[k].inUse then ExpiryTurnDone(y, k, now, made', z) else z == y
    ensures ExpiryReaches(x, k + 1, now, made', z)
  {
    hide ExpiryOn;
    forall later | made' <= later
      ensures ExpiryFrom(x, 0, now, later) == ExpiryFrom(z, k + 1, now, later)
    {
      assert made <= later;
      if y.searches[k].inUse { assert z == ExpiryOn(y, k, now, later); }
    }
  }

  lemma ExpiryOver(x: Scene, now: u64, made: seq<seq<GuestOp>>, y: Scene)
    requires ExpiryReaches(x, |x.searches|, now, made, y)
    ensures y == ExpiryFrom(x, 0, now, made)
  {
  }

  lemma LoopsBegin(x: Scene, k: nat, generation: nat, records: seq<Record>, now: u64, made: seq<seq<GuestOp>>)
    ensures DispatchReaches(x, k, generation, 0, made, x)
    ensures PacketReaches(x, 0, records, now, made, x) && ExpiryReaches(x, 0, now, made, x)
  {
  }

  lemma NothingPerformed(x: Scene)
    ensures PerformedAll(x, []) == x
  {
  }

  // ---------- When no callback makes a call ----------

  predicate NoCalls(made: seq<seq<GuestOp>>) {
    forall j :: 0 <= j < |made| ==> made[j] == []
  }

  /** How many entries take a new token. */
  function Rotations(d: seq<Entry>): nat {
    if d == [] then 0 else Rotations(d[..|d| - 1]) + One(Rotates(d[|d| - 1]))
  }

  /** The first n entries dispatched, each rotation taking the next token. */
  function QuietEntries(d: seq<Entry>, next: nat, n: nat): (r: seq<Entry>)
    requires n <= |d|
    ensures |r| == |d|
  {
    seq(|d|, i requires 0 <= i < |d| =>
      if i < n then DispatchedEntry(d[i], TokenAfter(d[i], next + Rotations(d[..i]))) else d[i])
  }

  /** What they tell. */
  function QuietTells(s: Search, d: seq<Entry>, next: nat): seq<Event> {
    if d == [] then []
    else
      var before, e := d[..|d| - 1], d[|d| - 1];
      QuietTells(s, before, next) + Tells(s, e, next + Rotations(before))
  }

  lemma QuietNotified(x: Scene, event: Event, made: seq<seq<GuestOp>>)
    requires NoCalls(made)
    ensures Notified(x, event, made) == x.(log := x.log + [event])
  {
  }

  lemma {:induction false} QuietTold(x: Scene, k: nat, generation: nat, events: seq<Event>, made: seq<seq<GuestOp>>)
    requires NoCalls(made) && x.Runs(k, generation)
    ensures TellAll(x, k, generation, events, made) == x.(log := x.log + events)
    decreases |events|
  {
    hide Notified;
    if events == [] {
    } else {
      QuietNotified(x, events[0], made);
      QuietTold(x.(log := x.log + [events[0]]), k, generation, events[1..], made);
      assert x.log + [events[0]] + events[1..] == x.log + events;
    }
  }

  /** The dispatch from entry n on, when the first n have been dispatched. */
  ghost function QuietScene(x: Scene, k: nat, n: nat): Scene
    requires k < |x.searches| && n <= |x.searches[k].discovered|
  {
    var s := x.searches[k];
    var d := s.discovered;
    x.With(k, s.(discovered := QuietEntries(d, x.next, n)))
     .(next := x.next + Rotations(d[..n]), log := x.log + QuietTells(s, d[..n], x.next))
  }

  lemma QuietNext(s: Search, d: seq<Entry>, next: nat, n: nat)
    requires n < |d|
    ensures var e, at := d[n], next + Rotations(d[..n]);
            && Rotations(d[..n + 1]) == Rotations(d[..n]) + One(Rotates(e))
            && QuietTells(s, d[..n + 1], next) == QuietTells(s, d[..n], next) + Tells(s, e, at)
            && QuietEntries(d, next, n)[n] == e
            && QuietEntries(d, next, n + 1) == QuietEntries(d, next, n)[n := DispatchedEntry(e, TokenAfter(e, at))]
  {
    hide DispatchedEntry, TokenAfter, Rotates, Tells;
    assert d[..n + 1][..n] == d[..n];
  }

  lemma SameTells(s: Search, d: seq<Entry>, e: Entry, next: nat)
    ensures Tells(s.(discovered := d), e, next) == Tells(s, e, next)
  {
  }

  lemma QuietTurn(x: Scene, k: nat, n: nat, made: seq<seq<GuestOp>>)
    requires NoCalls(made) && k < |x.searches| && x.searches[k].inUse && n < |x.searches[k].discovered|
    ensures EntryDispatched(QuietScene(x, k, n), k, n, made) == QuietScene(x, k, n + 1)
  {
    hide DispatchedEntry, TokenAfter, Rotates, TellAll, Tells, QuietTells, QuietEntries, Rotations, NoCalls;
    var s, d, y := x.searches[k], x.searches[k].discovered, QuietScene(x, k, n);
    var e, next := d[n], x.next + Rotations(d[..n]);
    QuietNext(s, d, x.next, n);
    SameTells(s, y.searches[k].discovered, e, next);
    var f := DispatchedEntry(e, TokenAfter(e, next));
    var z := y.With(k, WithEntry(y.searches[k], n, f)).(next := next + One(Rotates(e)));
    QuietTold(z, k, s.generation, Tells(s, e, next), made);
  }

  lemma {:induction false} QuietFrom(x: Scene, k: nat, n: nat, made: seq<seq<GuestOp>>)
    requires NoCalls(made) && k < |x.searches| && x.searches[k].inUse
    requires n <= |x.searches[k].discovered| == MAX_DISCOVERED
    ensures DispatchedFrom(QuietScene(x, k, n), k, x.searches[k].generation, n, made)
         == QuietScene(x, k, MAX_DISCOVERED)
    decreases MAX_DISCOVERED - n
  {
    hide QuietEntries, EntryDispatched;
    if n == MAX_DISCOVERED {
    } else {
      QuietTurn(x, k, n, made);
      QuietFrom(x, k, n + 1, made);
    }
  }

  /** When no callback makes a call, a dispatch is fully determined: every entry is dispatched, with the next token for
      each rotation, and exactly the notifications the entries call for are added. */
  lemma QuietDispatch(x: Scene, k: nat, made: seq<seq<GuestOp>>)
    requires NoCalls(made) && k < |x.searches| && x.searches[k].inUse
    requires |x.searches[k].discovered| == MAX_DISCOVERED
    ensures var s, d := x.searches[k], x.searches[k].discovered;
            DispatchedFrom(x, k, s.generation, 0, made)
            == Scene(x.searches[k := s.(discovered := QuietEntries(d, x.next, MAX_DISCOVERED))], x.generation,
                     x.next + Rotations(d), x.log + QuietTells(s, d, x.next))
  {
    hide DispatchedFrom;
    var s, d := x.searches[k], x.searches[k].discovered;
    assert d[..0] == [] && d[..MAX_DISCOVERED] == d;
    assert QuietEntries(d, x.next, 0) == d;
    assert x.searches[k := s] == x.searches && QuietScene(x, k, 0) == x;
    QuietFrom(x, k, 0, made);
  }

  /** An entry that is settled has nothing to tell, and keeps its token and its marks. */
  lemma SettledTellsNothing(s: Search, e: Entry, g: GuestState, next: nat)
    requires Settled(e, g)
    ensures Tells(s, e, next) == [] && !Rotates(e) && DispatchedEntry(e, TokenAfter(e, next)) == e
  {
  }
}
