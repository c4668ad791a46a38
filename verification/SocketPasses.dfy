/** What a whole poll pass delivers, said in terms of the fields of the slots and the bits poll reports. */
module SocketPasses {
  import opened Options
  import opened SocketSlots

  /** The registration that hears of a condition: a connect callback while the connection is pending, once it can be
      written to; an accept or readable callback once there is something to read; a writable callback once it can be
      written to; and each of them on an error. */
  function Heard(s: Slot, kind: Kind, c: Events): Option<nat> {
    if !s.inUse then None
    else match kind
         case Connect => if s.connectPending && (c.output || c.error) then s.connect else None
         case Accept => if c.input || c.error then s.accept else None
         case Readable => if c.input || c.error then s.readable else None
         case Writable => if c.output || c.error then s.writable else None
  }

  /** The slot afterwards: what was heard is no longer registered, and a connection that was reported is settled. */
  function Settled(s: Slot, c: Events): Slot {
    if !s.inUse then s
    else
      s.(connectPending := s.connectPending && !(c.output || c.error),
         connect := if s.connectPending && (c.output || c.error) then None else s.connect,
         accept := if c.input || c.error then None else s.accept,
         readable := if c.input || c.error then None else s.readable,
         writable := if c.output || c.error then None else s.writable)
  }

  predicate IsHeard(d: Delivery, slots: seq<Slot>, conditions: seq<Events>)
    requires |slots| == |conditions|
  {
    && d.slot < |slots| && d.generation == slots[d.slot].generation
    && Heard(slots[d.slot], d.kind, conditions[d.slot]) == Some(d.registration)
  }

  /** By slot, and within a slot connect, accept, readable, writable. */
  predicate InOrder(log: seq<Delivery>) {
    forall i, j :: 0 <= i < j < |log| ==> Earlier(log[i], log[j])
  }

  predicate Earlier(a: Delivery, b: Delivery) {
    a.slot < b.slot || (a.slot == b.slot && KindNumber(a.kind) < KindNumber(b.kind))
  }

  function KindNumber(kind: Kind): nat {
    match kind
    case Connect => 1
    case Accept => 2
    case Readable => 3
    case Writable => 4
  }

  // ---------- One event ----------

  lemma TakenAt(t: Table, k: nat, kind: Kind, ready: bool)
    requires k < |t.slots|
    ensures StageTaken(t, k, kind, ready)
         == t.(slots := t.slots[k := if ready then Taken(t.slots[k], kind) else t.slots[k]])
  {
    assert t.slots[k := t.slots[k]] == t.slots;
  }

  /** The slot after stages n and later, when no callback makes a call. */
  function TakenFrom(s: Slot, e: Events, n: nat): Slot
    requires n <= 4
    decreases 4 - n
  {
    if n == 4 then s else TakenFrom(if ReadyFor(STAGES[n], e) then Taken(s, STAGES[n]) else s, e, n + 1)
  }

  lemma {:induction false} QuietSlots(t: Table, entry: Entry, n: nat, made: seq<seq<SocketOp>>)
    requires n <= 4 && t.Holds(entry.slot, entry.generation) && NoneMade(made)
    ensures Staged(t, entry, n, made).0
         == t.(slots := t.slots[entry.slot := TakenFrom(t.slots[entry.slot], entry.events, n)])
    decreases 4 - n
  {
    hide Fires, StageTaken, Staged;
    var k := entry.slot;
    if n == 4 {
      NoMoreStages(t, entry, n, made);
      assert t.slots[k := t.slots[k]] == t.slots;
    } else {
      var ready := ReadyFor(STAGES[n], entry.events);
      var fired, taken := Fires(t.slots[k], k, STAGES[n], ready), StageTaken(t, k, STAGES[n], ready);
      var s := if ready then Taken(t.slots[k], STAGES[n]) else t.slots[k];
      var rest := if fired == [] || made == [] then made else made[1..];
      StagedIs(t, entry, n, made);
      TakenAt(t, k, STAGES[n], ready);
      if made != [] { assert PerformAll(taken, made[0]) == taken; }
      QuietSlots(taken, entry, n + 1, rest);
      assert t.slots[k := s][k := TakenFrom(s, entry.events, n + 1)] == t.slots[k := TakenFrom(s, entry.events, n + 1)];
    }
  }

  lemma TakenIs(s: Slot, c: Events)
    requires s.inUse
    ensures TakenFrom(s, Reported(s, c), 0) == Settled(s, c)
  {
    var e := Reported(s, c);
    var a := if ReadyFor(Connect, e) then Taken(s, Connect) else s;
    var b := if ReadyFor(Accept, e) then Taken(a, Accept) else a;
    var d := if ReadyFor(Readable, e) then Taken(b, Readable) else b;
    var f := if ReadyFor(Writable, e) then Taken(d, Writable) else d;
    assert TakenFrom(d, e, 3) == TakenFrom(f, e, 4) == f;
    assert TakenFrom(b, e, 2) == TakenFrom(d, e, 3);
    assert TakenFrom(a, e, 1) == TakenFrom(b, e, 2);
    assert TakenFrom(s, e, 0) == TakenFrom(a, e, 1);
  }

  /** What an event delivers, field by field. */
  lemma DeliveriesAre(s: Slot, k: nat, c: Events)
    requires s.inUse
    ensures var log := Deliveries(s, k, Reported(s, c));
            && (forall d :: d in log <==>
                  d.slot == k && d.generation == s.generation && Heard(s, d.kind, c) == Some(d.registration))
            && InOrder(log)
  {
    hide Fires, Heard, Reported, ReadyFor;
    var e := Reported(s, c);
    DeliveryOf(s, k, c, Connect);
    DeliveryOf(s, k, c, Accept);
    DeliveryOf(s, k, c, Readable);
    DeliveryOf(s, k, c, Writable);
    ReadyIs(e);
    Together(s, k, c, Deliveries(s, k, e));
  }

  lemma ReadyIs(e: Events)
    ensures ReadyFor(Connect, e) == ReadyFor(Writable, e) == e.Out()
    ensures ReadyFor(Accept, e) == ReadyFor(Readable, e) == e.In()
  {
  }

  /** What is heard of a kind, as a delivery. */
  function HeardOf(s: Slot, k: nat, c: Events, kind: Kind): (log: seq<Delivery>)
    ensures forall d :: d in log <==>
              d.slot == k && d.generation == s.generation && d.kind == kind && Heard(s, kind, c) == Some(d.registration)
    ensures |log| <= 1
  {
    match Heard(s, kind, c)
    case None => []
    case Some(r) => [Delivery(k, s.generation, kind, r)]
  }

  lemma Together(s: Slot, k: nat, c: Events, log: seq<Delivery>)
    requires log == HeardOf(s, k, c, Connect) + HeardOf(s, k, c, Accept) + HeardOf(s, k, c, Readable)
                    + HeardOf(s, k, c, Writable)
    ensures forall d :: d in log <==>
              d.slot == k && d.generation == s.generation && Heard(s, d.kind, c) == Some(d.registration)
    ensures InOrder(log)
  {
    hide Heard, HeardOf;
    forall d
      ensures d in log <==> d.slot == k && d.generation == s.generation && Heard(s, d.kind, c) == Some(d.registration)
    {
      match d.kind
      case Connect =>
      case Accept =>
      case Readable =>
      case Writable =>
    }
  }

  lemma DeliveryOf(s: Slot, k: nat, c: Events, kind: Kind)
    requires s.inUse
    ensures Fires(s, k, kind, ReadyFor(kind, Reported(s, c))) == HeardOf(s, k, c, kind)
  {
  }

  // ---------- The pass ----------

  /** The slots once the first n have been polled and told. */
  predicate SlotsAfter(slots: seq<Slot>, conditions: seq<Events>, n: nat, now: seq<Slot>)
    requires |slots| == |conditions|
  {
    && n <= |slots| == |now|
    && (forall m :: 0 <= m < n ==> now[m] == Settled(slots[m], conditions[m]))
    && (forall m :: n <= m < |slots| ==> now[m] == slots[m])
  }

  ghost predicate LogAfter(slots: seq<Slot>, conditions: seq<Events>, n: nat, log: seq<Delivery>)
    requires |slots| == |conditions|
  {
    && (forall d :: d in log <==> d.slot < n && IsHeard(d, slots, conditions)) && InOrder(log)
  }

  /** A slot that is not polled, or of which nothing is reported, hears nothing and stays as it is. */
  lemma NothingHeard(s: Slot, c: Events)
    requires !Polled(s) || !Reported(s, c).Any()
    ensures Settled(s, c) == s && forall kind :: Heard(s, kind, c).None?
  {
  }

  lemma QuietTurn(slots: seq<Slot>, conditions: seq<Events>, n: nat, t: Table, log: seq<Delivery>,
                  made: seq<seq<SocketOp>>)
    requires |slots| == |conditions| && n < |slots| && NoneMade(made)
    requires SlotsAfter(slots, conditions, n, t.slots) && LogAfter(slots, conditions, n, log)
    requires slots[n].inUse
    ensures var entry := Entry(n, slots[n].generation, Reported(slots[n], conditions[n]));
            var (u, more) := Staged(t, entry, 0, made);
            && SlotsAfter(slots, conditions, n + 1, u.slots) && LogAfter(slots, conditions, n + 1, log + more)
            && u.registrations == t.registrations
  {
    hide Staged, Deliveries, Settled, Heard, Reported, NoneMade;
    var entry := Entry(n, slots[n].generation, Reported(slots[n], conditions[n]));
    QuietEvent(t, entry, made);
    QuietSlots(t, entry, 0, made);
    TakenIs(slots[n], conditions[n]);
    DeliveriesAre(slots[n], n, conditions[n]);
  }

  lemma StillTurn(slots: seq<Slot>, conditions: seq<Events>, n: nat, t: Table, log: seq<Delivery>)
    requires |slots| == |conditions| && n < |slots|
    requires SlotsAfter(slots, conditions, n, t.slots) && LogAfter(slots, conditions, n, log)
    requires !Polled(slots[n]) || !Reported(slots[n], conditions[n]).Any()
    ensures SlotsAfter(slots, conditions, n + 1, t.slots) && LogAfter(slots, conditions, n + 1, log)
  {
    hide Settled, Heard, Reported;
    NothingHeard(slots[n], conditions[n]);
  }

  lemma {:induction false} QuietPasses(t: Table, conditions: seq<Events>, n: nat, made: seq<seq<seq<SocketOp>>>)
    requires |t.slots| == |conditions| && n <= |t.slots| && |made| == |Collected(t.slots, conditions, n)|
    requires forall i :: 0 <= i < |made| ==> NoneMade(made[i])
    ensures var (u, log) := Passed(t, Collected(t.slots, conditions, n), made);
            && SlotsAfter(t.slots, conditions, n, u.slots) && LogAfter(t.slots, conditions, n, log)
            && u.registrations == t.registrations
    decreases n
  {
    hide Staged, SlotsAfter, LogAfter, NoneMade, Reported, Polled;
    if n == 0 {
      NothingYet(t.slots, conditions);
    } else {
      var before := Collected(t.slots, conditions, n - 1);
      if Polled(t.slots[n - 1]) {
        var k := |before|;
        assert made == made[..k] + [made[k]];
        QuietPasses(t, conditions, n - 1, made[..k]);
        var entry := Entry(n - 1, t.slots[n - 1].generation, Reported(t.slots[n - 1], conditions[n - 1]));
        PassedMore(t, before, made[..k], entry, made[k]);
        var (u, log) := Passed(t, before, made[..k]);
        InUsePolled(t.slots[n - 1]);
        QuietTurn(t.slots, conditions, n - 1, u, log, made[k]);
        if !entry.events.Any() { StillTurn(t.slots, conditions, n - 1, u, log); }
      } else {
        assert before + [] == before;
        QuietPasses(t, conditions, n - 1, made);
        var (u, log) := Passed(t, before, made);
        StillTurn(t.slots, conditions, n - 1, u, log);
      }
    }
  }

  lemma InUsePolled(s: Slot)
    requires Polled(s)
    ensures s.inUse
  {
  }

  lemma NothingYet(slots: seq<Slot>, conditions: seq<Events>)
    requires |slots| == |conditions|
    ensures SlotsAfter(slots, conditions, 0, slots) && LogAfter(slots, conditions, 0, [])
  {
  }

  /** A pass whose callbacks make no calls delivers exactly what is heard, slot by slot and in order, and leaves every
      slot settled. */
  lemma QuietPass(t: Table, conditions: seq<Events>, made: seq<seq<seq<SocketOp>>>)
    requires |t.slots| == |conditions| && |made| == |Collected(t.slots, conditions, |t.slots|)|
    requires forall i :: 0 <= i < |made| ==> NoneMade(made[i])
    ensures var (u, log) := Passed(t, Collected(t.slots, conditions, |t.slots|), made);
            && (forall d :: d in log <==> IsHeard(d, t.slots, conditions)) && InOrder(log)
            && |u.slots| == |t.slots| && u.registrations == t.registrations
            && forall m :: 0 <= m < |t.slots| ==> u.slots[m] == Settled(t.slots[m], conditions[m])
  {
    hide Passed, Collected, NoneMade, Settled, Heard;
    QuietPasses(t, conditions, |t.slots|, made);
  }

  // ---------- From the registration to the delivery ----------

  /** What a call with a callback waits for. */
  predicate WaitsFor(op: SocketOp, handle: nat, kind: Kind) {
    match op
    case CreateOp => false
    case CloseOp(_) => false
    case AcceptOp(h, completes, callback) => h == handle && !completes && callback && kind == Accept
    case ConnectOp(h, _, callback) => h == handle && callback && kind == Connect
    case ReadableOp(h, callback) => h == handle && callback && kind == Readable
    case WritableOp(h, callback) => h == handle && callback && kind == Writable
  }

  /** A callback given to an accept that has to wait, to a connect, readable or writable is the next registration, and
      the next pass that reports what it waits for, or an error, hears it and no older one of its kind. */
  lemma RegistrationHeard(t: Table, op: SocketOp, handle: nat, kind: Kind, c: Events)
    requires t.Open(handle) && WaitsFor(op, handle, kind)
    requires c.error || (if kind == Connect || kind == Writable then c.output else c.input)
    ensures var u := Perform(t, op);
            && u.Open(handle) && Heard(u.slots[handle], kind, c) == Some(t.registrations)
            && u.registrations == t.registrations + 1 && u.slots[handle].generation == t.slots[handle].generation
            && forall m :: 0 <= m < |t.slots| && m != handle ==> u.slots[m] == t.slots[m]
  {
  }

  /** What a call takes back: without a callback, and by the calls that exclude each other. */
  lemma RegistrationDropped(t: Table, handle: nat, completes: bool, callback: bool, c: Events)
    requires t.Open(handle)
    ensures Heard(Perform(t, ReadableOp(handle, callback)).slots[handle], Accept, c).None?
    ensures Heard(Perform(t, ReadableOp(handle, false)).slots[handle], Readable, c).None?
    ensures Heard(Perform(t, WritableOp(handle, false)).slots[handle], Writable, c).None?
    ensures Heard(Perform(t, ConnectOp(handle, completes, false)).slots[handle], Connect, c).None?
    ensures Heard(Perform(t, AcceptOp(handle, false, true)).slots[handle], Readable, c).None?
    ensures !Perform(t, CloseOp(handle)).Open(handle)
    ensures forall kind :: Heard(Perform(t, CloseOp(handle)).slots[handle], kind, c).None?
  {
  }

  /** An accept that finds a connection gives it a free slot, and then waits no longer; without a free slot it goes on
      waiting. */
  lemma AcceptedThenSilent(t: Table, handle: nat, callback: bool, c: Events)
    requires t.Open(handle)
    ensures var u := Perform(t, AcceptOp(handle, true, callback));
            && |u.slots| == |t.slots|
            && (if forall m :: 0 <= m < |t.slots| ==> t.slots[m].inUse then u == t
                else && Heard(u.slots[handle], Accept, c).None?
                     && exists k :: 0 <= k < |t.slots| && !t.slots[k].inUse && u.slots[k].inUse
                          && u.slots[k].generation == t.slots[k].generation + 1 && u.slots[k].Idle())
  {
    var k := FirstFree(t.slots);
    if k < |t.slots| {
      assert !t.slots[k].inUse && k != handle;
      var u := Perform(t, AcceptOp(handle, true, callback));
      assert u.slots[k] == Opened(t.slots[k]);
    }
  }

  // ---------- What calls leave alone ----------

  /** The callbacks a call takes the place of. */
  predicate Replaces(op: SocketOp, kind: Kind) {
    match op
    case CreateOp => false
    case CloseOp(_) => true
    case AcceptOp(_, completes, callback) =>
      (completes && kind == Accept) || (!completes && callback && (kind == Accept || kind == Readable))
    case ConnectOp(_, _, _) => kind == Connect
    case ReadableOp(_, _) => kind == Readable || kind == Accept
    case WritableOp(_, _) => kind == Writable
  }

  predicate IsOn(op: SocketOp, handle: nat) {
    !op.CreateOp? && op.handle == handle
  }

  /** A call on an open socket leaves the callbacks it does not replace, its handle, and all other open sockets; a
      connect stays pending while it is in progress or has a callback to call. A call on a closed handle does
      nothing. */
  lemma OthersKept(t: Table, op: SocketOp, handle: nat, c: Events)
    requires handle < |t.slots|
    ensures var u := Perform(t, op);
            && |u.slots| == |t.slots|
            && (forall m :: 0 <= m < |t.slots| && t.slots[m].inUse && !IsOn(op, m) ==> u.slots[m] == t.slots[m])
            && (IsOn(op, handle) && !t.slots[handle].inUse ==> u == t)
            && (IsOn(op, handle) && t.slots[handle].inUse && !op.CloseOp? ==>
                  var s, r := t.slots[handle], u.slots[handle];
                  && r.inUse && r.generation == s.generation
                  && (forall kind :: !Replaces(op, kind) ==> Heard(r, kind, c) == Heard(s, kind, c))
                  && r.connectPending == if op.ConnectOp? then !op.completes || op.callback else s.connectPending)
  {
    FreeIsFree(t.slots);
  }

  lemma FreeIsFree(slots: seq<Slot>)
    ensures FirstFree(slots) < |slots| ==> !slots[FirstFree(slots)].inUse
  {
  }

  /** A new socket takes the first free slot, under the next generation, and waits for nothing; a closed one gives up
      its generation. There are 32 slots. */
  lemma OpenedAndClosed(t: Table, handle: nat, origins: seq<Origin>, log: seq<Delivery>, born: set<(nat, nat)>)
    requires AllOk(t.slots, origins, log, born) && t.Open(handle)
    ensures |t.slots| == 32
    ensures var u := Perform(t, CreateOp);
            && u.registrations == t.registrations && |u.slots| == 32
            && forall m :: 0 <= m < 32 ==>
                 if !t.slots[m].inUse && forall n :: 0 <= n < m ==> t.slots[n].inUse then
                   u.slots[m] == Slot(true, t.slots[m].generation + 1, false, None, None, None, None)
                 else u.slots[m] == t.slots[m]
    ensures var u := Perform(t, CloseOp(handle));
            && u.registrations == t.registrations
            && u.slots == t.slots[handle := Slot(false, t.slots[handle].generation + 1, false, None, None, None, None)]
  {
    hide LogOk, BornOk, SlotOk;
    FreeIsFree(t.slots);
  }

  // ---------- Callbacks that make calls ----------

  /** Callbacks that call nothing on this handle. */
  predicate Elsewhere(made: seq<seq<SocketOp>>, handle: nat) {
    forall i, j :: 0 <= i < |made| && 0 <= j < |made[i]| ==> !IsOn(made[i][j], handle)
  }

  lemma {:induction false} PerformedElsewhere(t: Table, ops: seq<SocketOp>, handle: nat)
    requires handle < |t.slots| && t.slots[handle].inUse && forall j :: 0 <= j < |ops| ==> !IsOn(ops[j], handle)
    ensures PerformAll(t, ops).slots[handle] == t.slots[handle]
    decreases |ops|
  {
    hide Perform, IsOn;
    if ops == [] {
    } else {
      var before := PerformAll(t, ops[..|ops| - 1]);
      PerformedElsewhere(t, ops[..|ops| - 1], handle);
      OneElsewhere(before, ops[|ops| - 1], handle);
    }
  }

  lemma OneElsewhere(t: Table, op: SocketOp, handle: nat)
    requires handle < |t.slots| && t.slots[handle].inUse && !IsOn(op, handle)
    ensures Perform(t, op).slots[handle] == t.slots[handle]
  {
    hide Perform;
    OthersKept(t, op, handle, Events(false, false, false));
  }

  lemma {:induction false} StagesElsewhere(t: Table, entry: Entry, n: nat, made: seq<seq<SocketOp>>)
    requires n <= 4 && t.Holds(entry.slot, entry.generation) && Elsewhere(made, entry.slot)
    ensures Staged(t, entry, n, made).1 == FiresFrom(t.slots[entry.slot], entry, n)
    ensures Staged(t, entry, n, made).0.slots[entry.slot] == TakenFrom(t.slots[entry.slot], entry.events, n)
    decreases 4 - n
  {
    hide Fires, StageTaken, Staged, PerformAll, IsOn;
    var k := entry.slot;
    if n == 4 {
      NoMoreStages(t, entry, n, made);
    } else {
      var ready := ReadyFor(STAGES[n], entry.events);
      var fired, taken := Fires(t.slots[k], k, STAGES[n], ready), StageTaken(t, k, STAGES[n], ready);
      StagedIs(t, entry, n, made);
      TakenAt(t, k, STAGES[n], ready);
      TakenStays(t.slots[k], entry, n);
      SameFires(t.slots[k], taken.slots[k], entry, n + 1);
      if fired == [] || made == [] {
        StagesElsewhere(taken, entry, n + 1, made);
      } else {
        PerformedElsewhere(taken, made[0], k);
        StagesElsewhere(PerformAll(taken, made[0]), entry, n + 1, made[1..]);
      }
    }
  }

  /** A stage takes its own callback only. */
  lemma TakenStays(s: Slot, entry: Entry, n: nat)
    requires n < 4
    ensures var u := if ReadyFor(STAGES[n], entry.events) then Taken(s, STAGES[n]) else s;
            && u.inUse == s.inUse && u.generation == s.generation
            && forall m :: n < m < 4 ==>
                 Fires(u, entry.slot, STAGES[m], ReadyFor(STAGES[m], entry.events))
                 == Fires(s, entry.slot, STAGES[m], ReadyFor(STAGES[m], entry.events))
  {
  }

  /** Whatever callbacks do to other sockets, an event delivers to its own exactly what it would if they did nothing. */
  lemma CallsElsewhere(t: Table, entry: Entry, made: seq<seq<SocketOp>>)
    requires t.Holds(entry.slot, entry.generation) && Elsewhere(made, entry.slot)
    ensures Staged(t, entry, 0, made).1 == Deliveries(t.slots[entry.slot], entry.slot, entry.events)
    ensures Staged(t, entry, 0, made).0.slots[entry.slot] == TakenFrom(t.slots[entry.slot], entry.events, 0)
  {
    hide Staged, Fires, Deliveries, FiresFrom, TakenFrom;
    StagesElsewhere(t, entry, 0, made);
    AllStages(t.slots[entry.slot], entry);
  }

  /** A socket whose connect callback closes it hears nothing more of the event. */
  lemma ClosedMeanwhile(t: Table, entry: Entry, r: nat, rest: seq<seq<SocketOp>>)
    requires t.Holds(entry.slot, entry.generation) && entry.events.Out()
    requires t.slots[entry.slot].connectPending && t.slots[entry.slot].connect == Some(r)
    ensures var (u, log) := Staged(t, entry, 0, [[CloseOp(entry.slot)]] + rest);
            log == [Delivery(entry.slot, entry.generation, Connect, r)] && !u.Open(entry.slot)
  {
    hide Staged, PerformAll;
    var k, made := entry.slot, [[CloseOp(entry.slot)]] + rest;
    StagedIs(t, entry, 0, made);
    assert STAGES[0] == Connect && ReadyFor(Connect, entry.events);
    TakenAt(t, k, Connect, true);
    var taken := StageTaken(t, k, Connect, true);
    OneCall(taken, CloseOp(k));
    assert made[1..] == rest;
    NoMoreStages(PerformAll(taken, made[0]), entry, 1, rest);
  }

  lemma OneCall(t: Table, op: SocketOp)
    ensures PerformAll(t, [op]) == Perform(t, op)
  {
    hide Perform;
    assert [op][..0] == [];
    assert PerformAll(t, []) == t;
  }

  /** One whose connect callback asks for data hears of them in the same event, if they are there. */
  lemma RegisteredMeanwhile(t: Table, entry: Entry, r: nat)
    requires t.Holds(entry.slot, entry.generation) && entry.events.Out() && entry.events.In()
    requires var s := t.slots[entry.slot];
             s.connectPending && s.connect == Some(r) && s.accept.None? && s.readable.None? && s.writable.None?
    ensures Staged(t, entry, 0, [[ReadableOp(entry.slot, true)]]).1
         == [Delivery(entry.slot, entry.generation, Connect, r),
             Delivery(entry.slot, entry.generation, Readable, t.registrations)]
  {
    hide Staged, PerformAll;
    var k, made := entry.slot, [[ReadableOp(entry.slot, true)]];
    StagedIs(t, entry, 0, made);
    assert STAGES[0] == Connect && ReadyFor(Connect, entry.events);
    TakenAt(t, k, Connect, true);
    var taken := StageTaken(t, k, Connect, true);
    OneCall(taken, ReadableOp(k, true));
    var u := PerformAll(taken, made[0]);
    assert made[1..] == [];
    StagesElsewhere(u, entry, 1, []);
    FiresStep(u.slots[k], entry, 1);
    FiresStep(u.slots[k], entry, 2);
    FiresStep(u.slots[k], entry, 3);
  }
}
