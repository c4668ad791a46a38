/** What each public call does to the whole state, and what holds between calls: the steps that runs are made of. */
module ZeroconfRuns {
  import opened Options
  import opened WireNames
  import opened WireParse
  import opened ZeroconfCache
  import opened ZeroconfGuest
  import opened ZeroconfTokens
  import opened ZeroconfSteps
  import opened ZeroconfScene
  import opened ZeroconfRevival
  import opened ZeroconfApply

  /** The searches and their accounts at one moment. */
  datatype Moment = Moment(searches: seq<Search>, books: Books)
  {
    /** What callbacks can see or change of it. */
    function View(): Scene {
      Scene(searches, books.generation, books.next, books.log)
    }
  }

  // ---------- Agreement between calls ----------

  predicate HoldsComplete(s: Search, t: nat) {
    exists i :: 0 <= i < |s.discovered| && s.discovered[i].inUse && s.discovered[i].Complete()
                && s.discovered[i].token == Some(t)
  }

  /** The tokens the guest was told of as found by this search, and not as lost, are those of its complete entries. */
  ghost predicate TokensExact(s: Search, log: seq<Event>) {
    s.inUse ==>
      forall t: nat :: HoldsComplete(s, t) <==> Guest(log, t).Known? && Finder(log, t) == s.generation
  }

  /** Every entry has been dispatched. */
  predicate AllMarked(s: Search) {
    s.inUse ==>
      forall i :: 0 <= i < |s.discovered| && s.discovered[i].inUse ==>
        (s.discovered[i].notified <==> s.discovered[i].Complete())
  }

  predicate Marked(ss: seq<Search>) {
    forall m :: 0 <= m < |ss| ==> AllMarked(ss[m])
  }

  ghost predicate SettledAll(ss: seq<Search>, log: seq<Event>) {
    forall m :: 0 <= m < |ss| ==> AllSettled(ss[m], log)
  }

  /** Between calls: the guest knows exactly the complete entries of every search. */
  ghost predicate AtRest(x: Moment) {
    Marked(x.searches) && forall m :: 0 <= m < |x.searches| ==> TokensExact(x.searches[m], x.books.log)
  }

  /** And it knows them with their present port, host, address and TXT strings. */
  ghost predicate InStep(x: Moment) {
    AtRest(x) && SettledAll(x.searches, x.books.log)
  }

  /** What the guest knows from a search that was not stopped is the token of a notified entry of that search, which
      runs: it is neither in flight nor retired nor freed. */
  lemma KnownIsHeld(ss: seq<Search>, b: Books, clock: u64, t: nat) returns (k: nat, i: nat)
    requires Sound(ss, b, clock) && Guest(b.log, t).Known? && Stopped(Finder(b.log, t)) !in b.log
    ensures Holds(ss, k, i, t) && ss[k].inUse && ss[k].generation == Finder(b.log, t)
    ensures ss[k].discovered[i].inUse && ss[k].discovered[i].notified
    ensures t !in b.loose.inFlight && t !in b.loose.retired && t !in b.loose.frees
  {
    hide Guest, Finder, LogOk, AddressAgreement, Distinct, NoDuplicates;
    k, i := b.owner[t].slot, b.owner[t].index;
    assert Holds(ss, k, i, t);
    assert SearchOk(ss[k], clock);
    assert EntrySane(ss[k].discovered[i]) && EntryHeard(ss[k].discovered[i], ss[k].generation, b.log);
  }

  lemma RunningNotStopped(ss: seq<Search>, b: Books, k: nat)
    requires Accounted(ss, b) && k < |ss| && ss[k].inUse
    ensures Stopped(ss[k].generation) !in b.log
    ensures forall m :: 0 <= m < |ss| && ss[m].inUse && ss[m].generation == ss[k].generation ==> m == k
  {
    hide Conserved, TokensHeard, KnownHeld, SilentAfterStop, FoundComplete;
  }

  /** A dispatched search has told its complete entries and taken back everything else. */
  lemma ExactTokens(ss: seq<Search>, b: Books, clock: u64, k: nat)
    requires Sound(ss, b, clock) && k < |ss| && AllMarked(ss[k])
    ensures TokensExact(ss[k], b.log)
  {
    hide Guest, Finder, Accounted, Distinct, AddressAgreement, EntrySane;
    if ss[k].inUse {
      RunningNotStopped(ss, b, k);
      forall t: nat
        ensures HoldsComplete(ss[k], t) <==> Guest(b.log, t).Known? && Finder(b.log, t) == ss[k].generation
      {
        if Guest(b.log, t).Known? && Finder(b.log, t) == ss[k].generation {
          var m, i := KnownIsHeld(ss, b, clock, t);
          assert m == k;
        }
        if HoldsComplete(ss[k], t) {
          var i :| 0 <= i < |ss[k].discovered| && ss[k].discovered[i].inUse && ss[k].discovered[i].Complete()
                   && ss[k].discovered[i].token == Some(t);
          MarkedIsKnown(ss, b, k, i, t);
        }
      }
    }
  }

  lemma MarkedIsKnown(ss: seq<Search>, b: Books, k: nat, i: nat, t: nat)
    requires Accounted(ss, b) && k < |ss| && i < |ss[k].discovered|
    requires ss[k].discovered[i].notified && ss[k].discovered[i].token == Some(t)
    ensures Guest(b.log, t).Known? && Finder(b.log, t) == ss[k].generation
  {
    hide Guest, Finder, Conserved, LogOk, KnownHeld;
    assert EntryHeard(ss[k].discovered[i], ss[k].generation, b.log);
  }

  lemma RestingTokens(ss: seq<Search>, b: Books, clock: u64)
    requires Sound(ss, b, clock) && Marked(ss)
    ensures AtRest(Moment(ss, b))
  {
    hide Sound, TokensExact, AllMarked;
    forall m | 0 <= m < |ss|
      ensures TokensExact(ss[m], b.log)
    {
      ExactTokens(ss, b, clock, m);
    }
  }

  lemma SettledMarked(ss: seq<Search>, log: seq<Event>)
    requires SettledAll(ss, log)
    ensures Marked(ss)
  {
    hide Guest, SameEndpoint;
    forall m | 0 <= m < |ss|
      ensures AllMarked(ss[m])
    {
      assert AllSettled(ss[m], log);
      forall i | 0 <= i < |ss[m].discovered| && ss[m].inUse
        ensures ss[m].discovered[i].inUse ==> (ss[m].discovered[i].notified <==> ss[m].discovered[i].Complete())
      {
        assert Settled(ss[m].discovered[i], GuestOf(log, ss[m].discovered[i]));
      }
    }
  }

  lemma DispatchedMarked(s: Search, t: Search)
    requires DispatchedSearch(s, t)
    ensures AllMarked(t)
  {
  }

  lemma SlotMarked(s: Search, t: Search, g: nat)
    requires SlotKept(s, t, g) && AllMarked(s)
    ensures AllMarked(t)
  {
  }

  /** A search's turn leaves that search dispatched or gone and the others as they were, stopped or started. */
  lemma TurnMarked(k: nat, ss: seq<Search>, log: seq<Event>, tt: seq<Search>, log': seq<Event>, g: nat)
    requires Marked(ss) && k < |ss| && OthersKeptInStep(k, ss, log, tt, log', g) && AllMarked(tt[k])
    ensures Marked(tt)
  {
    hide AllMarked, SlotKept, AllSettled;
    forall m | 0 <= m < |tt|
      ensures AllMarked(tt[m])
    {
      if m != k { SlotMarked(ss[m], tt[m], g); }
    }
  }

  lemma UndisturbedMarked(ss: seq<Search>, tt: seq<Search>, g: nat)
    requires Marked(ss) && Undisturbed(ss, tt, g)
    ensures Marked(tt)
  {
    hide AllMarked, SlotKept;
    forall m | 0 <= m < |tt|
      ensures AllMarked(tt[m])
    {
      SlotMarked(ss[m], tt[m], g);
    }
  }

  // ---------- Packets and expiry ----------

  /** The packet deceives the guest in no search that outlives it. */
  predicate NoneDeceived(ss: seq<Search>, tt: seq<Search>, records: seq<Record>, now: u64) {
    forall m :: 0 <= m < |ss| && m < |tt| && SameSearch(ss[m], tt[m]) ==> Undeceived(ss[m], records, now)
  }

  /** A received packet: only accepted responses have an effect, on every search the right one; searches and
      notifications are then exactly what the records and the recorded calls of the callbacks make of them, and guest
      and caches stay in step exactly if no search is deceived. */
  ghost predicate PacketDone(x: Moment, data: seq<byte>, now: u64, y: Moment) {
    && Grown(x.books, y.books)
    && (match ResponseRecords(data)
        case None => y.searches == x.searches && y.books == x.books
        case Some(records) => ResponseDone(x, records, now, y))
    && (AtRest(x) ==> AtRest(y))
    && (Harmless(data) && InStep(x) ==> InStep(y))
  }

  ghost predicate ResponseDone(x: Moment, records: seq<Record>, now: u64, y: Moment) {
    && |y.searches| == |x.searches| && y.View() == PacketFrom(x.View(), 0, records, now, y.books.made)
    && (forall m :: 0 <= m < |x.searches| ==> PacketEffect(x.searches[m], y.searches[m], records, now))
    && (InStep(x) ==> (InStep(y) <==> NoneDeceived(x.searches, y.searches, records, now)))
  }

  /** An expiry at `now`: nothing that is held afterwards has expired. */
  ghost predicate ExpiryDone(x: Moment, now: u64, y: Moment) {
    && Grown(x.books, y.books)
    && |y.searches| == |x.searches| && y.View() == ExpiryFrom(x.View(), 0, now, y.books.made)
    && (forall m :: 0 <= m < |x.searches| ==>
          ExpiryEffect(x.searches[m], y.searches[m], now) && AllFresh(y.searches[m], now))
    && (AtRest(x) ==> AtRest(y))
    && (InStep(x) ==> InStep(y))
  }

  // ---------- Which searches a packet leaves settled ----------

  /** After a pass over the first k slots, with all searches settled before it. */
  ghost predicate PassedSettled(ss: seq<Search>, tt: seq<Search>, k: nat, records: seq<Record>, now: u64,
                                log: seq<Event>) {
    && |tt| == |ss|
    && (forall m :: 0 <= m < k && m < |ss| ==> SlotSettled(ss[m], tt[m], records, now, log))
    && (forall m :: k <= m < |ss| ==> AllSettled(tt[m], log))
  }

  ghost predicate SlotSettled(s: Search, t: Search, records: seq<Record>, now: u64, log: seq<Event>) {
    AllSettled(t, log) <==> !SameSearch(s, t) || Undeceived(s, records, now)
  }

  lemma SettledBegins(ss: seq<Search>, records: seq<Record>, now: u64, log: seq<Event>)
    requires SettledAll(ss, log)
    ensures PassedSettled(ss, ss, 0, records, now, log)
  {
    hide AllSettled;
  }

  lemma SettledEnds(ss: seq<Search>, tt: seq<Search>, records: seq<Record>, now: u64, log: seq<Event>)
    requires PassedSettled(ss, tt, |ss|, records, now, log)
    ensures SettledAll(tt, log) <==> NoneDeceived(ss, tt, records, now)
  {
    hide AllSettled, Undeceived;
    if SettledAll(tt, log) {
      forall m | 0 <= m < |ss|
        ensures SameSearch(ss[m], tt[m]) ==> Undeceived(ss[m], records, now)
      {
        assert SlotSettled(ss[m], tt[m], records, now, log);
      }
    }
    if NoneDeceived(ss, tt, records, now) {
      forall m | 0 <= m < |tt|
        ensures AllSettled(tt[m], log)
      {
        assert SlotSettled(ss[m], tt[m], records, now, log);
      }
    }
  }

  /** One more slot: the others are untouched, or stopped and newer. */
  lemma SettledTurn(ss: seq<Search>, before: seq<Search>, log: seq<Event>, tt: seq<Search>, log': seq<Event>, k: nat,
                    records: seq<Record>, now: u64, g: nat, g': nat)
    requires PassedSettled(ss, before, k, records, now, log) && k < |ss| && g <= g'
    requires forall m :: 0 <= m < |ss| && ss[m].inUse ==> ss[m].generation <= g
    requires OthersKeptInStep(k, before, log, tt, log', g') && SlotKept(ss[k], before[k], g)
    requires SlotSettled(before[k], tt[k], records, now, log') && SlotTurned(before[k], tt[k], g')
    ensures PassedSettled(ss, tt, k + 1, records, now, log')
  {
    hide AllSettled, Undeceived, Deceives;
    forall m | 0 <= m < |ss| && m != k
      ensures m < k ==> SlotSettled(ss[m], tt[m], records, now, log')
      ensures m > k ==> AllSettled(tt[m], log')
    {
      assert SlotKept(before[m], tt[m], g');
      if tt[m] != before[m] {
        NewerSettled(ss[m], tt[m], g', log');
      } else if m < k {
        assert SlotSettled(ss[m], before[m], records, now, log);
      }
    }
    if before[k] != ss[k] && before[k].inUse { NoEntriesUndeceived(before[k], records, now); }
    if !tt[k].inUse { IdleSettled(tt[k], log'); }
  }

  lemma PassedBounds(ss: seq<Search>, tt: seq<Search>, k: nat, records: seq<Record>, now: u64, g: nat)
    requires PassedPacket(ss, tt, k, records, now, g) && k < |ss|
    ensures (forall m :: 0 <= m < |ss| && ss[m].inUse ==> ss[m].generation <= g) && SlotKept(ss[k], tt[k], g)
    ensures |tt| == |ss|
  {
    hide SlotKept, PacketEffect;
  }

  lemma NotYetPassed(ss: seq<Search>, tt: seq<Search>, k: nat, records: seq<Record>, now: u64, log: seq<Event>)
    requires PassedSettled(ss, tt, k, records, now, log) && k < |ss|
    ensures |tt| == |ss| && AllSettled(tt[k], log)
  {
    hide AllSettled, SlotSettled;
  }

  lemma NewerSettled(s: Search, t: Search, g: nat, log: seq<Event>)
    requires NoEntries(t) && (t.inUse ==> t.generation > g) && (s.inUse ==> s.generation <= g)
    ensures AllSettled(t, log) && !SameSearch(s, t)
  {
    hide Guest;
  }

  lemma NoEntriesUndeceived(s: Search, records: seq<Record>, now: u64)
    requires NoEntries(s)
    ensures Undeceived(s, records, now)
  {
    hide Deceives;
  }

  lemma IdleSettled(s: Search, log: seq<Event>)
    requires !s.inUse
    ensures AllSettled(s, log)
  {
  }

  // ---------- The pump ----------

  function Requeried(s: Search, now: u64): Search {
    if s.inUse && now >= s.nextQuery then s.(nextQuery := now + QUERY_INTERVAL) else s
  }

  function RequeriedAll(ss: seq<Search>, now: u64): (tt: seq<Search>)
    ensures |tt| == |ss|
  {
    seq(|ss|, m requires 0 <= m < |ss| => Requeried(ss[m], now))
  }

  /** One PTR query for every search whose time has come, in the order of the slots. */
  function Requeries(ss: seq<Search>, now: u64): seq<Query> {
    if ss == [] then []
    else
      var s := ss[|ss| - 1];
      Requeries(ss[..|ss| - 1], now)
      + (if s.inUse && now >= s.nextQuery then [Query(s.serviceFqdn, TYPE_PTR)] else [])
  }

  /** Asking again changes no record and tells nobody anything. */
  lemma RequeriedStays(ss: seq<Search>, b: Books, now: u64)
    ensures AtRest(Moment(ss, b)) ==> AtRest(Moment(RequeriedAll(ss, now), b))
    ensures InStep(Moment(ss, b)) ==> InStep(Moment(RequeriedAll(ss, now), b))
  {
    hide Guest, Finder, Settled, GuestOf;
    var tt := RequeriedAll(ss, now);
    forall m | 0 <= m < |ss|
      ensures AllMarked(ss[m]) ==> AllMarked(tt[m])
      ensures TokensExact(ss[m], b.log) ==> TokensExact(tt[m], b.log)
      ensures AllSettled(ss[m], b.log) ==> AllSettled(tt[m], b.log)
    {
      assert tt[m].discovered == ss[m].discovered && tt[m].inUse == ss[m].inUse;
      assert forall t: nat :: HoldsComplete(ss[m], t) <==> HoldsComplete(tt[m], t);
    }
  }

  const MAX_PUMPED := 32

  /** The pump takes packets up to an empty one, and 32 at most. */
  predicate Takes(received: seq<(seq<byte>, u64)>, n: nat) {
    && n <= |received| && n <= MAX_PUMPED
    && (forall j :: 0 <= j < n ==> received[j].0 != [])
    && (n == MAX_PUMPED || n == |received| || received[n].0 == [])
  }

  /** The moments of the receive loop. */
  ghost predicate Received(x: Moment, received: seq<(seq<byte>, u64)>, n: nat, trail: seq<Moment>) {
    && |trail| == n + 1 && n <= |received| && trail[0] == x
    && forall j :: 0 <= j < n ==> PacketDone(trail[j], received[j].0, received[j].1, trail[j + 1])
  }

  /** A pump: every packet taken has its effect in turn, then what has expired goes, then the searches that are due
      ask. */
  ghost predicate PumpDone(x: Moment, received: seq<(seq<byte>, u64)>, now: u64, queries: seq<Query>, y: Moment) {
    exists n: nat, trail: seq<Moment>, expired: Moment ::
      && Takes(received, n) && Received(x, received, n, trail) && ExpiryDone(trail[n], now, expired)
      && y == expired.(searches := RequeriedAll(expired.searches, now))
      && queries == Requeries(expired.searches, now)
  }

  /** Packets are received at times that do not go back. */
  predicate Ordered(received: seq<(seq<byte>, u64)>, now: u64) {
    && (forall j :: 0 <= j < |received| ==> now <= received[j].1)
    && (forall i, j :: 0 <= i < j < |received| ==> received[i].1 <= received[j].1)
  }

  function LastTime(received: seq<(seq<byte>, u64)>, now: u64): u64 {
    if received == [] then now else received[|received| - 1].1
  }

  lemma LastTimeLater(received: seq<(seq<byte>, u64)>, now: u64)
    requires Ordered(received, now)
    ensures now <= LastTime(received, now)
  {
  }

  lemma LastTimeBounds(received: seq<(seq<byte>, u64)>, now: u64, j: nat)
    requires Ordered(received, now) && j < |received|
    ensures now <= received[j].1 <= LastTime(received, now)
  {
  }

  // ---------- Calls of the guest ----------

  /** The handle of a started search, or none. */
  function StartedAt(ss: seq<Search>, serviceType: seq<byte>, domain: seq<byte>, socketOk: bool): Option<nat> {
    if FreeSearch(ss) < |ss| && SearchNames(serviceType, domain).Some? && socketOk then Some(FreeSearch(ss)) else None
  }

  /** Slots in use are untouched; a rejected name may leave its parts in a free one. */
  predicate SameRunning(ss: seq<Search>, tt: seq<Search>) {
    |ss| == |tt| && forall k :: 0 <= k < |ss| ==> tt[k] == ss[k] || !(ss[k].inUse || tt[k].inUse)
  }

  /** A start succeeds exactly if a slot is free, the names are usable and the socket opens. */
  ghost predicate StartDone(x: Moment, op: GuestOp, y: Moment)
    requires op.StartOp?
  {
    var at := StartedAt(x.searches, op.serviceType, op.domain, op.socketOk);
    if at.None? then y.books == x.books && SameRunning(x.searches, y.searches)
    else
      var names := SearchNames(op.serviceType, op.domain).value;
      && y.books == x.books.(generation := x.books.generation + 1)
      && y.searches
           == x.searches[at.value := NewSearch(y.books.generation, names.0, names.1, names.2, op.found, op.update,
                                                        op.lost, op.now + QUERY_INTERVAL)]
  }

  ghost predicate StopDone(x: Moment, handle: nat, y: Moment) {
    if handle < |x.searches| && x.searches[handle].inUse then
      && y.searches == x.searches[handle := EmptySearch()]
      && y.books.log == x.books.log + [Stopped(x.searches[handle].generation)]
    else y.searches == x.searches && y.books == x.books
  }

  ghost predicate CallDone(x: Moment, op: GuestOp, y: Moment) {
    && Grown(x.books, y.books) && y.books.made == x.books.made && y.View() == Performed(x.View(), op)
    && (match op
        case StartOp(_, _, _, _, _, _, _) => StartDone(x, op, y)
        case StopOp(handle) => StopDone(x, handle, y))
    && (AtRest(x) ==> AtRest(y))
    && (InStep(x) ==> InStep(y))
  }

  /** Stopping and starting searches says nothing about tokens, and leaves nothing to settle. */
  lemma StillSettled(ss: seq<Search>, log: seq<Event>, tt: seq<Search>, log': seq<Event>, g: nat)
    requires Undisturbed(ss, tt, g) && SameGuest(log, log') && SettledAll(ss, log)
    ensures SettledAll(tt, log')
  {
    hide Guest, SameEndpoint;
    forall m | 0 <= m < |tt|
      ensures AllSettled(tt[m], log')
    {
      assert SlotKept(ss[m], tt[m], g);
      if tt[m] == ss[m] {
        forall i | 0 <= i < |ss[m].discovered|
          ensures GuestOf(log', ss[m].discovered[i]) == GuestOf(log, ss[m].discovered[i])
        {
        }
      }
    }
  }

  // ---------- Runs ----------

  datatype Action =
    | PacketAction(data: seq<byte>, now: u64)
    | PumpAction(received: seq<(seq<byte>, u64)>, now: u64)
    | CallAction(op: GuestOp)

  ghost predicate ActionDone(x: Moment, action: Action, y: Moment) {
    match action
    case PacketAction(data, now) => PacketDone(x, data, now, y)
    case PumpAction(received, now) => exists queries :: PumpDone(x, received, now, queries, y)
    case CallAction(op) => CallDone(x, op, y)
  }

  /** A run: one moment before the first action, and one after each. */
  ghost predicate RunDone(actions: seq<Action>, moments: seq<Moment>) {
    && |moments| == |actions| + 1
    && forall j :: 0 <= j < |actions| ==> ActionDone(moments[j], actions[j], moments[j + 1])
  }

  /** The clock does not go back during a run. */
  predicate InOrder(actions: seq<Action>, clock: u64) {
    actions == [] ||
    match actions[0]
    case PacketAction(_, now) => clock <= now && InOrder(actions[1..], now)
    case PumpAction(received, now) =>
      clock <= now && Ordered(received, now) && InOrder(actions[1..], LastTime(received, now))
    case CallAction(_) => InOrder(actions[1..], clock)
  }

  predicate HarmlessAction(action: Action) {
    match action
    case PacketAction(data, _) => Harmless(data)
    case PumpAction(received, _) => forall j :: 0 <= j < |received| ==> Harmless(received[j].0)
    case CallAction(_) => true
  }

  lemma {:induction false} InOrderEarlier(actions: seq<Action>, clock: u64, earlier: u64)
    requires InOrder(actions, clock) && earlier <= clock
    ensures InOrder(actions, earlier)
    decreases |actions|
  {
    if actions != [] && actions[0].CallAction? { InOrderEarlier(actions[1..], clock, earlier); }
  }

  // ---------- What runs keep ----------

  lemma PacketLasts(x: Moment, data: seq<byte>, now: u64, y: Moment)
    requires PacketDone(x, data, now, y)
    ensures Grown(x.books, y.books) && (AtRest(x) ==> AtRest(y)) && (Harmless(data) && InStep(x) ==> InStep(y))
  {
    hide AtRest, InStep, Grown, ResponseDone, ResponseRecords, Harmless;
  }

  lemma {:induction false} ReceivedLasts(x: Moment, received: seq<(seq<byte>, u64)>, n: nat, trail: seq<Moment>, j: nat)
    requires Received(x, received, n, trail) && j <= n
    ensures Grown(x.books, trail[j].books) && (AtRest(x) ==> AtRest(trail[j]))
    ensures (forall i :: 0 <= i < n ==> Harmless(received[i].0)) && InStep(x) ==> InStep(trail[j])
    decreases j
  {
    hide AtRest, InStep, PacketDone, Harmless;
    if j == 0 {
    } else {
      ReceivedLasts(x, received, n, trail, j - 1);
      PacketLasts(trail[j - 1], received[j - 1].0, received[j - 1].1, trail[j]);
    }
  }

  lemma PumpLasts(x: Moment, received: seq<(seq<byte>, u64)>, now: u64, queries: seq<Query>, y: Moment)
    requires PumpDone(x, received, now, queries, y)
    ensures Grown(x.books, y.books) && (AtRest(x) ==> AtRest(y))
    ensures (forall i :: 0 <= i < |received| ==> Harmless(received[i].0)) && InStep(x) ==> InStep(y)
  {
    hide AtRest, InStep, ExpiryEffect, AllFresh, Harmless, RequeriedAll, Requeries;
    var n: nat, trail: seq<Moment>, expired: Moment :|
      && Takes(received, n) && Received(x, received, n, trail) && ExpiryDone(trail[n], now, expired)
      && y == expired.(searches := RequeriedAll(expired.searches, now))
      && queries == Requeries(expired.searches, now);
    ReceivedLasts(x, received, n, trail, n);
    RequeriedStays(expired.searches, expired.books, now);
  }

  lemma ActionLasts(x: Moment, action: Action, y: Moment)
    requires ActionDone(x, action, y)
    ensures Grown(x.books, y.books) && (AtRest(x) ==> AtRest(y)) && (HarmlessAction(action) && InStep(x) ==> InStep(y))
  {
    hide AtRest, InStep, Grown, PacketDone, PumpDone, StartDone, StopDone, Harmless;
    match action
    case PacketAction(data, now) =>
      PacketLasts(x, data, now, y);
    case PumpAction(received, now) =>
      var queries :| PumpDone(x, received, now, queries, y);
      PumpLasts(x, received, now, queries, y);
    case CallAction(op) =>
  }

  /** After every call of a run: nothing was taken back, and the guest still knows exactly the complete entries, with
      their present data unless a packet revived a record. */
  lemma {:induction false} RunLasts(actions: seq<Action>, moments: seq<Moment>, j: nat)
    requires RunDone(actions, moments) && j <= |actions|
    ensures Grown(moments[0].books, moments[j].books)
    ensures AtRest(moments[0]) ==> AtRest(moments[j])
    ensures InStep(moments[0]) && (forall i :: 0 <= i < j ==> HarmlessAction(actions[i])) ==> InStep(moments[j])
    decreases j
  {
    hide AtRest, InStep, ActionDone, HarmlessAction;
    if j == 0 {
    } else {
      RunLasts(actions, moments, j - 1);
      ActionLasts(moments[j - 1], actions[j - 1], moments[j]);
    }
  }
}
