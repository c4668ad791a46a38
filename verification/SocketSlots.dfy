/** Socket slots: handles that are used again, one-shot callbacks, and the poll pass that delivers events to them. */
module SocketSlots {
  import opened Options

  const SLOT_COUNT := 32

  datatype Kind = Connect | Accept | Readable | Writable

  /** Callbacks are numbered by registration: every call that registers one takes the next number. */
  datatype Slot = Slot(inUse: bool, generation: nat, connectPending: bool,
                       connect: Option<nat>, accept: Option<nat>, readable: Option<nat>, writable: Option<nat>)
  {
    function Registered(kind: Kind): Option<nat> {
      match kind
      case Connect => connect
      case Accept => accept
      case Readable => readable
      case Writable => writable
    }

    predicate Idle() {
      !connectPending && connect.None? && accept.None? && readable.None? && writable.None?
    }

    predicate WantsInput() {
      accept.Some? || readable.Some?
    }

    predicate WantsOutput() {
      connectPending || writable.Some?
    }
  }

  const FREE_SLOT := Slot(false, 0, false, None, None, None, None)

  /** Where and for what a callback was registered. */
  datatype Origin = Origin(slot: nat, generation: nat, kind: Kind)

  /** An invocation of a callback for an event that was collected for a slot and generation. */
  datatype Delivery = Delivery(slot: nat, generation: nat, kind: Kind, registration: nat)

  /** What poll reports: readable, writable, or one of the error conditions, which count as both. */
  datatype Events = Events(input: bool, output: bool, error: bool)
  {
    predicate In() { input || error }
    predicate Out() { output || error }
    predicate Any() { input || output || error }
  }

  datatype Entry = Entry(slot: nat, generation: nat, events: Events)

  /** What poll reports of a condition: what was asked for, and errors always. */
  function Reported(s: Slot, condition: Events): Events {
    Events(s.WantsInput() && condition.input, s.WantsOutput() && condition.output, condition.error)
  }

  /** What a callback may do to the slots. `completes` tells whether accept or connect finishes at once. */
  datatype SocketOp =
    | CreateOp
    | CloseOp(handle: nat)
    | AcceptOp(handle: nat, completes: bool, callback: bool)
    | ConnectOp(handle: nat, completes: bool, callback: bool)
    | ReadableOp(handle: nat, callback: bool)
    | WritableOp(handle: nat, callback: bool)

  // ---------- The invariant ----------

  /** What is registered on a slot was registered for its present socket, and has not been invoked. */
  ghost predicate SlotOk(s: Slot, k: nat, origins: seq<Origin>, log: seq<Delivery>) {
    && (!s.inUse ==> s.Idle())
    && (forall kind: Kind :: s.Registered(kind).Some? ==>
          var r := s.Registered(kind).value;
          r < |origins| && origins[r] == Origin(k, s.generation, kind) && Pending(r, log))
  }

  ghost predicate Pending(r: nat, log: seq<Delivery>) {
    forall i :: 0 <= i < |log| ==> log[i].registration != r
  }

  /** Every invocation was for the socket the callback was registered on, and no registration was invoked twice. */
  ghost predicate LogOk(log: seq<Delivery>, origins: seq<Origin>) {
    && (forall i :: 0 <= i < |log| ==>
          && log[i].registration < |origins|
          && origins[log[i].registration] == Origin(log[i].slot, log[i].generation, log[i].kind))
    && (forall i, j :: 0 <= i < j < |log| ==> log[i].registration != log[j].registration)
  }

  /** Sockets are told apart by slot and generation. */
  ghost predicate BornOk(slots: seq<Slot>, born: set<(nat, nat)>) {
    && (forall k, g :: (k, g) in born ==> k < |slots| && g <= slots[k].generation)
    && (forall k :: 0 <= k < |slots| && slots[k].inUse ==> (k, slots[k].generation) in born)
  }

  ghost predicate AllOk(slots: seq<Slot>, origins: seq<Origin>, log: seq<Delivery>, born: set<(nat, nat)>) {
    && |slots| == SLOT_COUNT && LogOk(log, origins) && BornOk(slots, born)
    && (forall k :: 0 <= k < |slots| ==> SlotOk(slots[k], k, origins, log))
  }

  // ---------- Changes to one slot ----------

  function Registering(s: Slot, kind: Kind, r: Option<nat>): Slot {
    match kind
    case Connect => s.(connect := r)
    case Accept => s.(accept := r)
    case Readable => s.(readable := r)
    case Writable => s.(writable := r)
  }

  lemma SlotChanged(slots: seq<Slot>, origins: seq<Origin>, log: seq<Delivery>, born: set<(nat, nat)>, k: nat, s: Slot)
    requires AllOk(slots, origins, log, born) && k < |slots| && s.generation == slots[k].generation
    requires s.inUse == slots[k].inUse
    requires SlotOk(s, k, origins, log)
    ensures AllOk(slots[k := s], origins, log, born)
  {
    hide SlotOk, LogOk;
  }

  /** A new registration on a slot in use. */
  lemma Registers(slots: seq<Slot>, origins: seq<Origin>, log: seq<Delivery>, born: set<(nat, nat)>, k: nat, kind: Kind)
    requires AllOk(slots, origins, log, born) && k < |slots| && slots[k].inUse
    ensures AllOk(slots[k := Registering(slots[k], kind, Some(|origins|))],
                  origins + [Origin(k, slots[k].generation, kind)], log, born)
  {
    var origins' := origins + [Origin(k, slots[k].generation, kind)];
    var slots' := slots[k := Registering(slots[k], kind, Some(|origins|))];
    assert Pending(|origins|, log);
    forall m | 0 <= m < |slots'|
      ensures SlotOk(slots'[m], m, origins', log)
    {
      assert SlotOk(slots[m], m, origins, log);
      forall other: Kind | slots'[m].Registered(other).Some?
        ensures var u := slots'[m].Registered(other).value;
                u < |origins'| && origins'[u] == Origin(m, slots'[m].generation, other) && Pending(u, log)
      {
        if m != k || other != kind { assert slots[m].Registered(other) == slots'[m].Registered(other); }
      }
    }
  }

  /** An invocation: the callback is taken off its slot first. */
  lemma Delivers(slots: seq<Slot>, origins: seq<Origin>, log: seq<Delivery>, born: set<(nat, nat)>, k: nat, kind: Kind,
                 s: Slot)
    requires AllOk(slots, origins, log, born) && k < |slots| && slots[k].inUse && slots[k].Registered(kind).Some?
    requires s == Registering(slots[k], kind, None) || s == Registering(slots[k], kind, None).(connectPending := false)
    ensures AllOk(slots[k := s], origins,
                  log + [Delivery(k, slots[k].generation, kind, slots[k].Registered(kind).value)], born)
  {
    var r := slots[k].Registered(kind).value;
    var log' := log + [Delivery(k, slots[k].generation, kind, r)];
    var slots' := slots[k := s];
    assert SlotOk(slots[k], k, origins, log);
    forall m | 0 <= m < |slots'|
      ensures SlotOk(slots'[m], m, origins, log')
    {
      assert SlotOk(slots[m], m, origins, log);
      forall other: Kind | slots'[m].Registered(other).Some?
        ensures var u := slots'[m].Registered(other).value;
                u < |origins| && origins[u] == Origin(m, slots'[m].generation, other) && Pending(u, log')
      {
        var u := slots'[m].Registered(other).value;
        assert slots[m].Registered(other) == Some(u);
        assert origins[u] == Origin(m, slots[m].generation, other);
        assert origins[r] == Origin(k, slots[k].generation, kind);
        assert m != k || other != kind;
      }
    }
  }

  /** A slot given to a new socket. */
  function Opened(s: Slot): Slot {
    FREE_SLOT.(inUse := true, generation := s.generation + 1)
  }

  lemma Created(slots: seq<Slot>, origins: seq<Origin>, log: seq<Delivery>, born: set<(nat, nat)>, k: nat)
    requires AllOk(slots, origins, log, born) && k < |slots| && !slots[k].inUse
    ensures (k, slots[k].generation + 1) !in born
    ensures AllOk(slots[k := Opened(slots[k])], origins, log,
                  born + {(k, slots[k].generation + 1)})
  {
    hide LogOk;
  }

  lemma Closed(slots: seq<Slot>, origins: seq<Origin>, log: seq<Delivery>, born: set<(nat, nat)>, k: nat)
    requires AllOk(slots, origins, log, born) && k < |slots|
    ensures AllOk(slots[k := FREE_SLOT.(generation := slots[k].generation + 1)], origins, log, born)
  {
    hide LogOk;
  }

  // ---------- What callbacks do ----------

  /** The slots, and the number of registrations so far. */
  datatype Table = Table(slots: seq<Slot>, registrations: nat)
  {
    predicate Open(handle: nat) {
      handle < |slots| && slots[handle].inUse
    }

    /** Another slot under a handle, after a registration if there is a callback. */
    function With(handle: nat, s: Slot, callback: bool): Table
      requires handle < |slots|
    {
      Table(slots[handle := s], registrations + if callback then 1 else 0)
    }

    /** The registration a call makes, if it has a callback. */
    function Next(callback: bool): Option<nat> {
      if callback then Some(registrations) else None
    }

    /** slot_matches */
    predicate Holds(k: nat, generation: nat) {
      k < |slots| && slots[k].inUse && slots[k].generation == generation
    }
  }

  function FirstFree(slots: seq<Slot>): (k: nat)
    ensures k <= |slots| && (k < |slots| ==> !slots[k].inUse)
    ensures forall m :: 0 <= m < k ==> slots[m].inUse
  {
    if slots == [] || !slots[0].inUse then 0
    else
      var k := FirstFree(slots[1..]);
      assert forall m :: 0 < m < 1 + k ==> slots[m] == slots[1..][m - 1];
      1 + k
  }

  lemma FirstFreeIs(slots: seq<Slot>, k: nat)
    requires k <= |slots| && (k < |slots| ==> !slots[k].inUse) && forall m :: 0 <= m < k ==> slots[m].inUse
    ensures FirstFree(slots) == k
  {
  }

  /** A new socket takes the first free slot, if there is one. */
  function Allocated(t: Table): (r: Table)
    ensures |r.slots| == |t.slots|
  {
    var k := FirstFree(t.slots);
    if k == |t.slots| then t else t.(slots := t.slots[k := Opened(t.slots[k])])
  }

  /** One socket call. An accept that finds a connection but no free slot changes nothing. */
  function Perform(t: Table, op: SocketOp): (r: Table)
    ensures |r.slots| == |t.slots|
  {
    match op
    case CreateOp => Allocated(t)
    case CloseOp(h) =>
      if t.Open(h) then t.With(h, FREE_SLOT.(generation := t.slots[h].generation + 1), false) else t
    case AcceptOp(h, completes, callback) =>
      if !t.Open(h) then t
      else if completes then
        if FirstFree(t.slots) == |t.slots| then t else Allocated(t).With(h, t.slots[h].(accept := None), false)
      else if callback then t.With(h, t.slots[h].(accept := t.Next(true), readable := None), true)
      else t
    case ConnectOp(h, completes, callback) =>
      if t.Open(h) then
        t.With(h, t.slots[h].(connectPending := !completes || callback, connect := t.Next(callback)), callback)
      else t
    case ReadableOp(h, callback) =>
      if t.Open(h) then t.With(h, t.slots[h].(readable := t.Next(callback), accept := None), callback) else t
    case WritableOp(h, callback) =>
      if t.Open(h) then t.With(h, t.slots[h].(writable := t.Next(callback)), callback) else t
  }

  function PerformAll(t: Table, ops: seq<SocketOp>): (r: Table)
    ensures |r.slots| == |t.slots|
  {
    if ops == [] then t else Perform(PerformAll(t, ops[..|ops| - 1]), ops[|ops| - 1])
  }

  lemma PerformMore(t: Table, ops: seq<SocketOp>, op: SocketOp)
    ensures PerformAll(t, ops + [op]) == Perform(PerformAll(t, ops), op)
  {
    assert (ops + [op])[..|ops|] == ops;
  }

  // ---------- One event ----------

  /** The order in which an event's callbacks are invoked. */
  const STAGES := [Connect, Accept, Readable, Writable]

  function Rank(kind: Kind): nat {
    match kind
    case Connect => 0
    case Accept => 1
    case Readable => 2
    case Writable => 3
  }

  predicate ReadyFor(kind: Kind, events: Events) {
    if kind == Connect || kind == Writable then events.Out() else events.In()
  }

  /** The table once a stage has taken its callback off the slot. */
  function StageTaken(t: Table, k: nat, kind: Kind, ready: bool): (r: Table)
    requires k < |t.slots|
    ensures |r.slots| == |t.slots|
  {
    if ready then t.(slots := t.slots[k := Taken(t.slots[k], kind)]) else t
  }

  /** The remaining stages of an event: each takes its callback off the slot and invokes it, if it is registered and
      ready, and the next one runs only if the socket is still there. `made` holds the calls of the invoked callbacks
      in turn. */
  function Staged(t: Table, entry: Entry, n: nat, made: seq<seq<SocketOp>>): (r: (Table, seq<Delivery>))
    requires n <= 4
    ensures |r.0.slots| == |t.slots|
    decreases 4 - n
  {
    var k := entry.slot;
    if n == 4 || !t.Holds(k, entry.generation) then (t, [])
    else
      var ready := ReadyFor(STAGES[n], entry.events);
      var fired := Fires(t.slots[k], k, STAGES[n], ready);
      var taken := StageTaken(t, k, STAGES[n], ready);
      if fired == [] || made == [] then
        var (u, more) := Staged(taken, entry, n + 1, made);
        (u, fired + more)
      else
        var (u, more) := Staged(PerformAll(taken, made[0]), entry, n + 1, made[1..]);
        (u, fired + more)
  }

  /** Deliveries for one event: all for its slot and generation, each kind at most once and in the order of the
      stages. */
  predicate InStageOrder(log: seq<Delivery>, entry: Entry) {
    && (forall i :: 0 <= i < |log| ==> log[i].slot == entry.slot && log[i].generation == entry.generation)
    && (forall i, j :: 0 <= i < j < |log| ==> Rank(log[i].kind) < Rank(log[j].kind))
  }

  /** None of them comes from a stage before n. */
  predicate From(log: seq<Delivery>, n: nat) {
    forall i :: 0 <= i < |log| ==> n <= Rank(log[i].kind)
  }

  /** Callbacks of one event come in the order connect, accept, readable, writable, each at most once, and all for the
      slot and generation of the event: for whatever calls they make. */
  lemma {:induction false} StagedInOrder(t: Table, entry: Entry, n: nat, made: seq<seq<SocketOp>>)
    requires n <= 4
    ensures InStageOrder(Staged(t, entry, n, made).1, entry) && From(Staged(t, entry, n, made).1, n)
    decreases 4 - n
  {
    hide PerformAll, StageTaken, Fires, InStageOrder, From, Staged;
    NoneInOrder(entry, n);
    if n == 4 || !t.Holds(entry.slot, entry.generation) {
      NoMoreStages(t, entry, n, made);
    } else {
      var k, ready := entry.slot, ReadyFor(STAGES[n], entry.events);
      var fired, taken := Fires(t.slots[k], k, STAGES[n], ready), StageTaken(t, k, STAGES[n], ready);
      StagedIs(t, entry, n, made);
      var u, rest := if fired == [] || made == [] then taken else PerformAll(taken, made[0]),
                     if fired == [] || made == [] then made else made[1..];
      StagedInOrder(u, entry, n + 1, rest);
      StageFirst(t.slots[k], entry, n, ready, Staged(u, entry, n + 1, rest).1);
    }
  }

  lemma NoMoreStages(t: Table, entry: Entry, n: nat, made: seq<seq<SocketOp>>)
    requires n <= 4 && (n == 4 || !t.Holds(entry.slot, entry.generation))
    ensures Staged(t, entry, n, made) == (t, [])
  {
  }

  lemma NoneInOrder(entry: Entry, n: nat)
    ensures InStageOrder([], entry) && From([], n)
  {
  }

  lemma StageFirst(s: Slot, entry: Entry, n: nat, ready: bool, more: seq<Delivery>)
    requires n < 4 && s.generation == entry.generation && InStageOrder(more, entry) && From(more, n + 1)
    ensures InStageOrder(Fires(s, entry.slot, STAGES[n], ready) + more, entry)
    ensures From(Fires(s, entry.slot, STAGES[n], ready) + more, n)
  {
    var fired := Fires(s, entry.slot, STAGES[n], ready);
    assert |fired| <= 1 && (forall i :: 0 <= i < |fired| ==> Rank(fired[i].kind) == n);
  }

  /** No callback made a call. */
  predicate NoneMade(made: seq<seq<SocketOp>>) {
    forall i :: 0 <= i < |made| ==> made[i] == []
  }

  /** One stage whose callback makes no call: the socket stays, and what the later stages will find is untouched. */
  lemma QuietStage(t: Table, entry: Entry, n: nat, made: seq<seq<SocketOp>>)
    requires n < 4 && t.Holds(entry.slot, entry.generation) && NoneMade(made)
    ensures var k, ready := entry.slot, ReadyFor(STAGES[n], entry.events);
            var taken := StageTaken(t, k, STAGES[n], ready);
            && taken.Holds(k, entry.generation)
            && Staged(t, entry, n, made).1
               == Fires(t.slots[k], k, STAGES[n], ready)
                  + Staged(taken, entry, n + 1,
                           if Fires(t.slots[k], k, STAGES[n], ready) == [] || made == [] then made else made[1..]).1
            && forall m :: n < m < 4 ==>
                 Fires(taken.slots[k], k, STAGES[m], ReadyFor(STAGES[m], entry.events))
                 == Fires(t.slots[k], k, STAGES[m], ReadyFor(STAGES[m], entry.events))
  {
    hide Staged;
    StagedIs(t, entry, n, made);
    var taken := StageTaken(t, entry.slot, STAGES[n], ReadyFor(STAGES[n], entry.events));
    if made != [] { assert PerformAll(taken, made[0]) == taken; }
  }

  lemma StagedIs(t: Table, entry: Entry, n: nat, made: seq<seq<SocketOp>>)
    requires n < 4 && t.Holds(entry.slot, entry.generation)
    ensures var k, ready := entry.slot, ReadyFor(STAGES[n], entry.events);
            var fired, taken := Fires(t.slots[k], k, STAGES[n], ready), StageTaken(t, k, STAGES[n], ready);
            Staged(t, entry, n, made) ==
              if fired == [] || made == [] then
                (Staged(taken, entry, n + 1, made).0, fired + Staged(taken, entry, n + 1, made).1)
              else
                (Staged(PerformAll(taken, made[0]), entry, n + 1, made[1..]).0,
                 fired + Staged(PerformAll(taken, made[0]), entry, n + 1, made[1..]).1)
  {
    hide PerformAll, Taken, Fires;
  }

  /** What stages n and later would deliver if no callback changed anything. */
  function FiresFrom(s: Slot, entry: Entry, n: nat): seq<Delivery>
    requires n <= 4
    decreases 4 - n
  {
    if n == 4 then []
    else Fires(s, entry.slot, STAGES[n], ReadyFor(STAGES[n], entry.events)) + FiresFrom(s, entry, n + 1)
  }

  lemma {:induction false} SameFires(s: Slot, u: Slot, entry: Entry, n: nat)
    requires n <= 4
    requires forall m :: n <= m < 4 ==>
      Fires(u, entry.slot, STAGES[m], ReadyFor(STAGES[m], entry.events))
      == Fires(s, entry.slot, STAGES[m], ReadyFor(STAGES[m], entry.events))
    ensures FiresFrom(u, entry, n) == FiresFrom(s, entry, n)
    decreases 4 - n
  {
    hide Fires;
    if n == 4 {
    } else {
      SameFires(s, u, entry, n + 1);
    }
  }

  lemma {:induction false} QuietStages(t: Table, entry: Entry, n: nat, made: seq<seq<SocketOp>>)
    requires n <= 4 && t.Holds(entry.slot, entry.generation) && NoneMade(made)
    ensures Staged(t, entry, n, made).1 == FiresFrom(t.slots[entry.slot], entry, n)
    decreases 4 - n
  {
    hide Fires, StageTaken;
    if n == 4 {
    } else {
      var k, ready := entry.slot, ReadyFor(STAGES[n], entry.events);
      var fired, taken := Fires(t.slots[k], k, STAGES[n], ready), StageTaken(t, k, STAGES[n], ready);
      hide Staged;
      QuietStage(t, entry, n, made);
      QuietStages(taken, entry, n + 1, if fired == [] || made == [] then made else made[1..]);
      SameFires(t.slots[k], taken.slots[k], entry, n + 1);
    }
  }

  /** Callbacks that make no calls are invoked exactly as the event and the slot say. */
  lemma QuietEvent(t: Table, entry: Entry, made: seq<seq<SocketOp>>)
    requires t.Holds(entry.slot, entry.generation) && NoneMade(made)
    ensures Staged(t, entry, 0, made).1 == Deliveries(t.slots[entry.slot], entry.slot, entry.events)
  {
    hide Staged, Fires, Deliveries, FiresFrom;
    QuietStages(t, entry, 0, made);
    AllStages(t.slots[entry.slot], entry);
  }

  lemma AllStages(s: Slot, entry: Entry)
    ensures FiresFrom(s, entry, 0) == Deliveries(s, entry.slot, entry.events)
  {
    hide Fires, FiresFrom;
    var k, e := entry.slot, entry.events;
    var a, b := Fires(s, k, Connect, e.Out()), Fires(s, k, Accept, e.In());
    var c, d := Fires(s, k, Readable, e.In()), Fires(s, k, Writable, e.Out());
    FiresStep(s, entry, 0);
    FiresStep(s, entry, 1);
    FiresStep(s, entry, 2);
    FiresStep(s, entry, 3);
    assert a + (b + (c + (d + []))) == a + b + c + d;
  }

  lemma FiresStep(s: Slot, entry: Entry, n: nat)
    requires n < 4
    ensures FiresFrom(s, entry, 4) == []
    ensures FiresFrom(s, entry, n)
         == Fires(s, entry.slot, STAGES[n], ReadyFor(STAGES[n], entry.events)) + FiresFrom(s, entry, n + 1)
  {
    hide Fires;
  }

  /** What holds of an event whatever its callbacks do. */
  lemma EventKeeps(t: Table, entry: Entry)
    ensures forall made :: InStageOrder(Staged(t, entry, 0, made).1, entry)
    ensures !t.Holds(entry.slot, entry.generation) ==> Staged(t, entry, 0, []) == (t, [])
    ensures t.Holds(entry.slot, entry.generation) ==>
      forall made :: NoneMade(made) ==>
        Staged(t, entry, 0, made).1 == Deliveries(t.slots[entry.slot], entry.slot, entry.events)
  {
    hide Deliveries, PerformAll, Fires, StageTaken, NoneMade;
    forall made: seq<seq<SocketOp>>
      ensures InStageOrder(Staged(t, entry, 0, made).1, entry)
    {
      StagedInOrder(t, entry, 0, made);
    }
    if t.Holds(entry.slot, entry.generation) {
      forall made | NoneMade(made)
        ensures Staged(t, entry, 0, made).1 == Deliveries(t.slots[entry.slot], entry.slot, entry.events)
      {
        QuietEvent(t, entry, made);
      }
    }
  }

  /** The logs before an event, and what the event has added to them so far. */
  datatype History = History(log: seq<Delivery>, made: seq<seq<SocketOp>>, calls: seq<seq<SocketOp>>,
                             deliveries: seq<Delivery>)
  {
    ghost predicate Is(now: seq<Delivery>, calledNow: seq<seq<SocketOp>>) {
      now == log + deliveries && calledNow == made + calls
    }
  }

  /** After n stages, with these calls and deliveries, the table is t: what remains is the same from here. */
  ghost predicate Reaches(start: Table, entry: Entry, n: nat, calls: seq<seq<SocketOp>>, t: Table, log: seq<Delivery>)
    requires n <= 4
  {
    forall rest ::
      Staged(start, entry, 0, calls + rest) == (Staged(t, entry, n, rest).0, log + Staged(t, entry, n, rest).1)
  }

  lemma Begins(start: Table, entry: Entry)
    ensures Reaches(start, entry, 0, [], start, [])
  {
    hide Staged;
    forall rest
      ensures Staged(start, entry, 0, [] + rest)
           == (Staged(start, entry, 0, rest).0, [] + Staged(start, entry, 0, rest).1)
    {
      assert [] + rest == rest && [] + Staged(start, entry, 0, rest).1 == Staged(start, entry, 0, rest).1;
    }
  }

  lemma Continues(start: Table, entry: Entry, n: nat, calls: seq<seq<SocketOp>>, t: Table, log: seq<Delivery>,
                  u: Table, fired: seq<Delivery>, calls': seq<seq<SocketOp>>)
    requires n < 4 && t.Holds(entry.slot, entry.generation) && Reaches(start, entry, n, calls, t, log)
    requires fired == Fires(t.slots[entry.slot], entry.slot, STAGES[n], ReadyFor(STAGES[n], entry.events))
    requires |calls'| == |calls| + |fired| && calls <= calls'
    requires var taken := StageTaken(t, entry.slot, STAGES[n], ReadyFor(STAGES[n], entry.events));
             u == if fired == [] then taken else PerformAll(taken, calls'[|calls|])
    ensures Reaches(start, entry, n + 1, calls', u, log + fired)
  {
    hide Staged, StageTaken, PerformAll, Fires;
    AtMostOne(t.slots[entry.slot], entry.slot, STAGES[n], ReadyFor(STAGES[n], entry.events));
    forall rest
      ensures Staged(start, entry, 0, calls' + rest)
           == (Staged(u, entry, n + 1, rest).0, (log + fired) + Staged(u, entry, n + 1, rest).1)
    {
      var more := if fired == [] then rest else [calls'[|calls|]] + rest;
      assert calls' + rest == calls + more;
      StagedIs(t, entry, n, more);
      if fired != [] { assert more[1..] == rest; }
      assert log + (fired + Staged(u, entry, n + 1, rest).1) == (log + fired) + Staged(u, entry, n + 1, rest).1;
    }
  }

  lemma AtMostOne(s: Slot, k: nat, kind: Kind, ready: bool)
    ensures |Fires(s, k, kind, ready)| <= 1
  {
  }

  lemma Concludes(start: Table, entry: Entry, n: nat, calls: seq<seq<SocketOp>>, t: Table, log: seq<Delivery>)
    requires n <= 4 && Reaches(start, entry, n, calls, t, log) && (n == 4 || !t.Holds(entry.slot, entry.generation))
    ensures Staged(start, entry, 0, calls) == (t, log)
  {
    assert calls + [] == calls && log + [] == log;
    assert Staged(t, entry, n, []) == (t, []);
    assert Staged(start, entry, 0, calls + []) == (Staged(t, entry, n, []).0, log + Staged(t, entry, n, []).1);
  }

  // ---------- A poll pass ----------

  /** What the pass asks about. */
  predicate Polled(s: Slot) {
    s.inUse && (s.WantsInput() || s.WantsOutput())
  }

  /** The entries of the first n slots. */
  function Collected(slots: seq<Slot>, conditions: seq<Events>, n: nat): seq<Entry>
    requires n <= |slots| && n <= |conditions|
  {
    if n == 0 then []
    else
      Collected(slots, conditions, n - 1)
      + (if Polled(slots[n - 1])
         then [Entry(n - 1, slots[n - 1].generation, Reported(slots[n - 1], conditions[n - 1]))] else [])
  }

  /** The events of a pass in turn; `made[n]` holds the calls made by the callbacks of entry n. */
  function Passed(t: Table, entries: seq<Entry>, made: seq<seq<seq<SocketOp>>>): (Table, seq<Delivery>)
    requires |entries| == |made|
  {
    if entries == [] then (t, [])
    else
      var n := |entries| - 1;
      var (u, log) := Passed(t, entries[..n], made[..n]);
      if !entries[n].events.Any() then (u, log)
      else
        var (v, more) := Staged(u, entries[n], 0, made[n]);
        (v, log + more)
  }

  lemma PassedMore(t: Table, entries: seq<Entry>, made: seq<seq<seq<SocketOp>>>, entry: Entry,
                   calls: seq<seq<SocketOp>>)
    requires |entries| == |made|
    ensures var u := Passed(t, entries, made);
            Passed(t, entries + [entry], made + [calls]) ==
              if !entry.events.Any() then u
              else (Staged(u.0, entry, 0, calls).0, u.1 + Staged(u.0, entry, 0, calls).1)
  {
    assert (entries + [entry])[..|entries|] == entries && (made + [calls])[..|made|] == made;
  }

  // ---------- One event, when the callbacks leave the slots alone ----------

  /** The deliveries an event makes to a slot, in order, if no callback changes anything. */
  function Deliveries(s: Slot, k: nat, events: Events): seq<Delivery> {
    Fires(s, k, Connect, events.Out()) + Fires(s, k, Accept, events.In())
    + Fires(s, k, Readable, events.In()) + Fires(s, k, Writable, events.Out())
  }

  /** A connect callback also waits for the connection to be pending. */
  function Fires(s: Slot, k: nat, kind: Kind, ready: bool): seq<Delivery> {
    if ready && (kind == Connect ==> s.connectPending) then To(s, k, kind) else []
  }

  function To(s: Slot, k: nat, kind: Kind): seq<Delivery> {
    if s.Registered(kind).Some? then [Delivery(k, s.generation, kind, s.Registered(kind).value)] else []
  }

  class Sockets {
    var slots: seq<Slot>
    var registrations: nat
    ghost var origins: seq<Origin>
    ghost var log: seq<Delivery>
    /** The calls made by the callback of each invocation. */
    ghost var made: seq<seq<SocketOp>>
    ghost var born: set<(nat, nat)>

    ghost predicate Valid()
      reads this
    {
      AllOk(slots, origins, log, born) && registrations == |origins| && |made| == |log|
    }

    function State(): Table
      reads this`slots, this`registrations
    {
      Table(slots, registrations)
    }

    constructor ()
      ensures Valid() && log == [] && born == {}
    {
      slots, registrations := seq(SLOT_COUNT, _ => FREE_SLOT), 0;
      origins, log, made, born := [], [], [], {};
    }

    /** allocate_socket_slot: the first free slot, under a generation that no socket has had there before. */
    method Allocate() returns (k: Option<nat>)
      requires Valid()
      modifies this`slots, this`born
      ensures Valid()
      ensures k.None? <==> forall m :: 0 <= m < SLOT_COUNT ==> old(slots[m].inUse)
      ensures k.None? ==> slots == old(slots) && born == old(born)
      ensures State() == Allocated(old(State()))
      ensures k == (if FirstFree(old(slots)) < SLOT_COUNT then Some(FirstFree(old(slots))) else None)
      ensures k.Some? ==>
        && k.value < SLOT_COUNT && !old(slots[k.value].inUse) && (forall m :: 0 <= m < k.value ==> old(slots[m].inUse))
        && slots == old(slots)[k.value := Opened(old(slots[k.value]))]
        && (k.value, slots[k.value].generation) !in old(born)
        && born == old(born) + {(k.value, slots[k.value].generation)}
    {
      var i := 0;
      while i < SLOT_COUNT && slots[i].inUse
        invariant i <= SLOT_COUNT && forall m :: 0 <= m < i ==> slots[m].inUse
      {
        i := i + 1;
      }
      FirstFreeIs(slots, i);
      if i == SLOT_COUNT {
        return None;
      }
      Created(slots, origins, log, born, i);
      var generation := slots[i].generation + 1;
      slots := slots[i := Opened(slots[i])];
      born := born + {(i, generation)};
      return Some(i);
    }

    /** close_socket_slot behind s3eSocketClose: the slot is free and its generation used up. */
    method Close(k: nat) returns (ok: bool)
      requires Valid()
      modifies this`slots
      ensures Valid() && (ok <==> k < SLOT_COUNT && old(slots[k].inUse))
      ensures slots == if ok then old(slots)[k := FREE_SLOT.(generation := old(slots[k].generation) + 1)]
                       else old(slots)
    {
      if k >= SLOT_COUNT || !slots[k].inUse {
        return false;
      }
      Closed(slots, origins, log, born, k);
      slots := slots[k := FREE_SLOT.(generation := slots[k].generation + 1)];
      return true;
    }

    /** Stores a callback, or its absence, under a registration of its own. */
    method Register(k: nat, kind: Kind, callback: bool)
      requires Valid() && k < SLOT_COUNT && slots[k].inUse
      modifies this`slots, this`registrations, this`origins
      ensures Valid() && registrations == old(registrations) + if callback then 1 else 0
      ensures var r := if callback then Some(old(registrations)) else None;
              slots == old(slots)[k := Registering(old(slots[k]), kind, r)]
    {
      if callback {
        Registers(slots, origins, log, born, k, kind);
        slots := slots[k := Registering(slots[k], kind, Some(registrations))];
        origins := origins + [Origin(k, slots[k].generation, kind)];
        registrations := registrations + 1;
      } else {
        Unregister(k, kind);
      }
    }

    method Unregister(k: nat, kind: Kind)
      requires Valid() && k < SLOT_COUNT && slots[k].inUse
      modifies this`slots
      ensures Valid() && slots == old(slots)[k := Registering(old(slots[k]), kind, None)]
    {
      Unregisters(slots, origins, log, born, k, kind);
      slots := slots[k := Registering(slots[k], kind, None)];
    }

    /** The handle of a socket in use. */
    predicate Open(handle: nat)
      reads this`slots
      requires |slots| == SLOT_COUNT
    {
      handle < SLOT_COUNT && slots[handle].inUse
    }

    /** s3eSocketAccept: a connection that is there takes a slot, and only then is a waiting accept callback dropped;
        without one the callback waits in place of a readable one. */
    method DoAccept(handle: nat, completes: bool, callback: bool)
      requires Valid() && |slots| == SLOT_COUNT
      modifies this`slots, this`registrations, this`origins, this`born
      ensures Valid() && |slots| == SLOT_COUNT
      ensures !old(Open(handle)) ==> slots == old(slots)
      ensures old(Open(handle)) && completes ==>
        var k := FirstFree(old(slots));
        slots == if k == SLOT_COUNT then old(slots)
                 else old(slots)[k := Opened(old(slots)[k])][handle := old(slots)[handle].(accept := None)]
      ensures old(Open(handle)) && !completes ==>
        var s := old(slots)[handle].(accept := Some(old(registrations)), readable := None);
        slots == if callback then old(slots)[handle := s] else old(slots)
      ensures State() == Perform(old(State()), AcceptOp(handle, completes, callback))
    {
      if handle >= SLOT_COUNT || !slots[handle].inUse {
        return;
      }
      if completes {
        var accepted := Allocate();
        if accepted.Some? {
          Unregister(handle, Accept);
        }
      } else if callback {
        Register(handle, Accept, true);
        Unregister(handle, Readable);
      }
    }

    /** s3eSocketConnect: pending while in progress, and also when done if somebody is to be told. */
    method DoConnect(handle: nat, completes: bool, callback: bool)
      requires Valid() && |slots| == SLOT_COUNT
      modifies this`slots, this`registrations, this`origins
      ensures Valid() && |slots| == SLOT_COUNT
      ensures !old(Open(handle)) ==> slots == old(slots)
      ensures old(Open(handle)) ==>
        var r := if callback then Some(old(registrations)) else None;
        slots == old(slots)[handle := old(slots)[handle].(connectPending := !completes || callback, connect := r)]
      ensures State() == Perform(old(State()), ConnectOp(handle, completes, callback))
    {
      if handle >= SLOT_COUNT || !slots[handle].inUse {
        return;
      }
      Register(handle, Connect, callback);
      MarkPending(handle, !completes || callback);
    }

    /** s3eSocketReadable: replaces a waiting accept. */
    method DoReadable(handle: nat, callback: bool)
      requires Valid() && |slots| == SLOT_COUNT
      modifies this`slots, this`registrations, this`origins
      ensures Valid() && |slots| == SLOT_COUNT
      ensures !old(Open(handle)) ==> slots == old(slots)
      ensures old(Open(handle)) ==>
        var r := if callback then Some(old(registrations)) else None;
        slots == old(slots)[handle := old(slots)[handle].(readable := r, accept := None)]
      ensures State() == Perform(old(State()), ReadableOp(handle, callback))
    {
      if handle >= SLOT_COUNT || !slots[handle].inUse {
        return;
      }
      Register(handle, Readable, callback);
      Unregister(handle, Accept);
    }

    /** s3eSocketWritable */
    method DoWritable(handle: nat, callback: bool)
      requires Valid() && |slots| == SLOT_COUNT
      modifies this`slots, this`registrations, this`origins
      ensures Valid() && |slots| == SLOT_COUNT
      ensures !old(Open(handle)) ==> slots == old(slots)
      ensures old(Open(handle)) ==>
        var r := if callback then Some(old(registrations)) else None;
        slots == old(slots)[handle := old(slots)[handle].(writable := r)]
      ensures State() == Perform(old(State()), WritableOp(handle, callback))
    {
      if handle >= SLOT_COUNT || !slots[handle].inUse {
        return;
      }
      Register(handle, Writable, callback);
    }

    /** One call of a callback. */
    method Do(op: SocketOp)
      requires Valid() && |slots| == SLOT_COUNT
      modifies this`slots, this`registrations, this`origins, this`born
      ensures Valid() && |slots| == SLOT_COUNT && State() == Perform(old(State()), op)
    {
      hide AllOk;
      match op
      case CreateOp =>
        var _ := Allocate();
      case CloseOp(handle) =>
        var _ := Close(handle);
      case AcceptOp(handle, completes, callback) =>
        DoAccept(handle, completes, callback);
      case ConnectOp(handle, completes, callback) =>
        DoConnect(handle, completes, callback);
      case ReadableOp(handle, callback) =>
        DoReadable(handle, callback);
      case WritableOp(handle, callback) =>
        DoWritable(handle, callback);
    }

    method MarkPending(k: nat, pending: bool)
      requires Valid() && k < SLOT_COUNT && slots[k].inUse
      modifies this`slots
      ensures Valid() && slots == old(slots)[k := old(slots[k]).(connectPending := pending)]
    {
      assert SlotOk(slots[k], k, origins, log);
      Marked(slots[k], k, origins, log, pending);
      SlotChanged(slots, origins, log, born, k, slots[k].(connectPending := pending));
      slots := slots[k := slots[k].(connectPending := pending)];
    }

    /** The body of a callback: any sequence of socket calls, which are returned. */
    method RunCallback() returns (ghost done: seq<SocketOp>)
      requires Valid() && |slots| == SLOT_COUNT
      modifies this`slots, this`registrations, this`origins, this`born
      ensures Valid() && |slots| == SLOT_COUNT && State() == PerformAll(old(State()), done)
    {
      hide AllOk, Perform;
      var ops: seq<SocketOp> := *;
      done := [];
      while ops != []
        invariant Valid() && |slots| == SLOT_COUNT && State() == PerformAll(old(State()), done)
        decreases |ops|
      {
        PerformMore(old(State()), done, ops[0]);
        Do(ops[0]);
        done := done + [ops[0]];
        ops := ops[1..];
      }
    }

    /** slot_matches */
    predicate Matches(k: nat, generation: nat)
      reads this
      requires |slots| == SLOT_COUNT
    {
      k < SLOT_COUNT && slots[k].inUse && slots[k].generation == generation
    }

    /** Takes a callback off its slot, records the invocation, and makes it. */
    method Invoke(k: nat, generation: nat, kind: Kind)
      requires Valid() && |slots| == SLOT_COUNT && Matches(k, generation) && slots[k].Registered(kind).Some?
      requires kind == Connect ==> slots[k].connectPending
      modifies this`slots, this`registrations, this`origins, this`born, this`log, this`made
      ensures Valid() && |slots| == SLOT_COUNT && log == old(log) + To(old(slots[k]), k, kind)
      ensures |made| == |old(made)| + 1 && old(made) <= made
      ensures State() == PerformAll(StageTaken(old(State()), k, kind, true), made[|old(made)|])
    {
      var s := Taken(slots[k], kind);
      Delivers(slots, origins, log, born, k, kind, s);
      log := log + [Delivery(k, generation, kind, slots[k].Registered(kind).value)];
      made := made + [[]];
      slots := slots[k := s];
      ghost var done := RunCallback();
      made := made[|made| - 1 := done];
    }

    /** One block of dispatch_socket_event: a callback that is registered and ready is invoked. */
    method Stage(k: nat, generation: nat, kind: Kind, ready: bool) returns (gone: bool)
      requires Valid() && |slots| == SLOT_COUNT && Matches(k, generation)
      modifies this`slots, this`registrations, this`origins, this`born, this`log, this`made
      ensures Valid() && |slots| == SLOT_COUNT && (gone <==> !Matches(k, generation))
      ensures log == old(log) + Fires(old(slots[k]), k, kind, ready) && old(made) <= made
      ensures var fired := Fires(old(slots[k]), k, kind, ready);
              && |made| == |old(made)| + |fired|
              && State() == (if fired == [] then StageTaken(old(State()), k, kind, ready)
                             else PerformAll(StageTaken(old(State()), k, kind, ready), made[|old(made)|]))
    {
      hide AllOk, PerformAll;
      if kind == Connect {
        if slots[k].connectPending && ready {
          if slots[k].connect.Some? {
            Invoke(k, generation, Connect);
          } else {
            MarkPending(k, false);
          }
        } else {
          NothingToTake(slots[k], kind, ready);
        }
      } else if slots[k].Registered(kind).Some? && ready {
        Invoke(k, generation, kind);
      } else {
        NothingToTake(slots[k], kind, ready);
      }
      gone := !Matches(k, generation);
    }

    /** dispatch_socket_event: nothing happens for a socket that is gone. Otherwise each ready callback is invoked, in
        the order connect, accept, readable, writable and at most once, as long as the socket is still the one the
        event was collected for; the slots are then what the recorded calls of the callbacks make of them. */
    method DispatchEvent(entry: Entry) returns (ghost calls: seq<seq<SocketOp>>)
      requires Valid() && |slots| == SLOT_COUNT
      modifies this`slots, this`registrations, this`origins, this`born, this`log, this`made
      ensures Valid() && |slots| == SLOT_COUNT && made == old(made) + calls
      ensures var event := Staged(old(State()), entry, 0, calls);
              State() == event.0 && log == old(log) + event.1
      ensures !old(Matches(entry.slot, entry.generation)) ==> slots == old(slots) && log == old(log) && calls == []
      ensures old(Matches(entry.slot, entry.generation)) && NoneMade(calls) ==>
        log == old(log) + Deliveries(old(slots[entry.slot]), entry.slot, entry.events)
      ensures InStageOrder(log[|old(log)|..], entry)
    {
      hide AllOk, Fires, Taken, Deliveries, Staged, StageTaken, PerformAll, Reaches, InStageOrder, NoneMade;
      var k, generation, events := entry.slot, entry.generation, entry.events;
      calls := [];
      ghost var start, before := State(), History(log, made, [], []);
      EventKeeps(start, entry);
      Begins(start, entry);
      if !Matches(k, generation) {
        return;
      }
      var gone;
      ghost var now := before;
      gone, now := RunStage(entry, 0, Connect, events.Out(), start, now);
      if gone {
        Concludes(start, entry, 1, now.calls, State(), now.deliveries);
        return now.calls;
      }
      gone, now := RunStage(entry, 1, Accept, events.In(), start, now);
      if gone {
        Concludes(start, entry, 2, now.calls, State(), now.deliveries);
        return now.calls;
      }
      gone, now := RunStage(entry, 2, Readable, events.In(), start, now);
      if gone {
        Concludes(start, entry, 3, now.calls, State(), now.deliveries);
        return now.calls;
      }
      gone, now := RunStage(entry, 3, Writable, events.Out(), start, now);
      Concludes(start, entry, 4, now.calls, State(), now.deliveries);
      return now.calls;
    }

    /** A stage in the account of its event. */
    method RunStage(entry: Entry, n: nat, kind: Kind, ready: bool, ghost start: Table, ghost before: History)
      returns (gone: bool, ghost after: History)
      requires Valid() && |slots| == SLOT_COUNT && n < 4 && Matches(entry.slot, entry.generation)
      requires kind == STAGES[n] && ready == ReadyFor(kind, entry.events)
      requires before.Is(log, made) && Reaches(start, entry, n, before.calls, State(), before.deliveries)
      modifies this`slots, this`registrations, this`origins, this`born, this`log, this`made
      ensures Valid() && |slots| == SLOT_COUNT && (gone <==> !Matches(entry.slot, entry.generation))
      ensures after.Is(log, made) && after.log == before.log && after.made == before.made
      ensures Reaches(start, entry, n + 1, after.calls, State(), after.deliveries)
    {
      hide AllOk, Taken, Fires, StageTaken, PerformAll, Reaches;
      ghost var t, fired := State(), Fires(slots[entry.slot], entry.slot, kind, ready);
      gone := Stage(entry.slot, entry.generation, kind, ready);
      ghost var added := made[|old(made)|..];
      after := before.(calls := before.calls + added, deliveries := before.deliveries + fired);
      Continues(start, entry, n, before.calls, t, before.deliveries, State(), fired, after.calls);
    }

    /** The collecting loop of s3e_socket_pump, with what poll then reports of the condition of each slot. */
    method Collect(conditions: seq<Events>) returns (entries: seq<Entry>)
      requires Valid() && |slots| == SLOT_COUNT && |conditions| == SLOT_COUNT
      ensures entries == Collected(slots, conditions, SLOT_COUNT)
    {
      entries := [];
      for k := 0 to SLOT_COUNT
        invariant entries == Collected(slots, conditions, k)
      {
        if !slots[k].inUse {
          continue;
        }
        if !slots[k].WantsInput() && !slots[k].WantsOutput() {
          continue;
        }
        entries := entries + [Entry(k, slots[k].generation, Reported(slots[k], conditions[k]))];
      }
    }

    /** s3e_socket_pump after its DNS part: the events of the slots that were polled, in turn, with the recorded calls
        of the callbacks. Whatever these close and create, every invocation is for a socket that was open, under that
        generation, when the pass began. */
    method Pump(conditions: seq<Events>) returns (ghost calls: seq<seq<seq<SocketOp>>>)
      requires Valid() && |slots| == SLOT_COUNT && |conditions| == SLOT_COUNT
      modifies this`slots, this`registrations, this`origins, this`born, this`log, this`made
      ensures Valid() && |calls| == |Collected(old(slots), conditions, SLOT_COUNT)| && made == old(made) + Flat(calls)
      ensures var pass := Passed(old(State()), Collected(old(slots), conditions, SLOT_COUNT), calls);
              State() == pass.0 && log == old(log) + pass.1
      ensures forall i :: |old(log)| <= i < |log| ==>
        && log[i].slot < SLOT_COUNT && old(slots)[log[i].slot].inUse
        && log[i].generation == old(slots)[log[i].slot].generation && conditions[log[i].slot].Any()
    {
      hide AllOk, Staged, Passed, Collected, Rank;
      ghost var start, before := State(), slots;
      var entries := Collect(conditions);
      CollectedAre(before, conditions, SLOT_COUNT);
      calls := [];
      NothingPassed(start);
      for n := 0 to |entries|
        invariant Valid() && |slots| == SLOT_COUNT && |calls| == n && made == old(made) + Flat(calls)
        invariant State() == Passed(start, entries[..n], calls).0
        invariant log == old(log) + Passed(start, entries[..n], calls).1
        invariant forall i :: |old(log)| <= i < |log| ==>
          && log[i].slot < SLOT_COUNT && before[log[i].slot].inUse
          && log[i].generation == before[log[i].slot].generation && conditions[log[i].slot].Any()
      {
        assert entries[..n + 1] == entries[..n] + [entries[n]];
        ghost var logged := log;
        ghost var done: seq<seq<SocketOp>> := [];
        if entries[n].events.Any() {
          done := DispatchEvent(entries[n]);
        }
        PassedMore(start, entries[..n], calls, entries[n], done);
        FlatMore(calls, done);
        calls := calls + [done];
        forall i | |old(log)| <= i < |log|
          ensures && log[i].slot < SLOT_COUNT && before[log[i].slot].inUse
                  && log[i].generation == before[log[i].slot].generation && conditions[log[i].slot].Any()
        {
          if i < |logged| { assert log[i] == logged[i]; }
        }
      }
      assert entries[..|entries|] == entries;
    }
  }

  /** The calls of a pass, one list for each invocation. */
  function Flat(calls: seq<seq<seq<SocketOp>>>): seq<seq<SocketOp>> {
    if calls == [] then [] else Flat(calls[..|calls| - 1]) + calls[|calls| - 1]
  }

  lemma FlatMore(calls: seq<seq<seq<SocketOp>>>, done: seq<seq<SocketOp>>)
    ensures Flat(calls + [done]) == Flat(calls) + done
  {
    assert (calls + [done])[..|calls|] == calls;
  }

  lemma NothingPassed(t: Table)
    ensures Passed(t, [], []) == (t, [])
  {
  }

  /** Exactly the slots that wait for something are polled, under their present generation. */
  lemma {:induction false} CollectedAre(slots: seq<Slot>, conditions: seq<Events>, n: nat)
    requires n <= |slots| && n <= |conditions|
    ensures forall i :: 0 <= i < |Collected(slots, conditions, n)| ==>
              EntryOf(Collected(slots, conditions, n)[i], slots, conditions, n)
    ensures forall k :: 0 <= k < n && Polled(slots[k]) ==>
              Entry(k, slots[k].generation, Reported(slots[k], conditions[k])) in Collected(slots, conditions, n)
    ensures forall i, j :: 0 <= i < j < |Collected(slots, conditions, n)| ==>
              Collected(slots, conditions, n)[i].slot < Collected(slots, conditions, n)[j].slot
  {
    if n == 0 {
    } else {
      CollectedAre(slots, conditions, n - 1);
      var before, entries := Collected(slots, conditions, n - 1), Collected(slots, conditions, n);
      forall i | 0 <= i < |before|
        ensures entries[i] == before[i] && EntryOf(before[i], slots, conditions, n)
      {
      }
      forall k | 0 <= k < n - 1 && Polled(slots[k])
        ensures Entry(k, slots[k].generation, Reported(slots[k], conditions[k])) in entries
      {
        var i :| 0 <= i < |before| && before[i] == Entry(k, slots[k].generation, Reported(slots[k], conditions[k]));
        assert entries[i] == before[i];
      }
    }
  }

  /** An entry for one of the first n slots, which waits for something, under its present generation. */
  predicate EntryOf(e: Entry, slots: seq<Slot>, conditions: seq<Events>, n: nat)
    requires n <= |slots| && n <= |conditions|
  {
    && e.slot < n && Polled(slots[e.slot])
    && e == Entry(e.slot, slots[e.slot].generation, Reported(slots[e.slot], conditions[e.slot]))
  }

  /** A slot whose callback of a kind is about to be invoked. */
  function Taken(s: Slot, kind: Kind): Slot {
    if kind == Connect then (if s.connectPending then s.(connectPending := false, connect := None) else s)
    else Registering(s, kind, None)
  }

  lemma NothingToTake(s: Slot, kind: Kind, ready: bool)
    requires !ready || (if kind == Connect then !s.connectPending else s.Registered(kind).None?)
    ensures ready ==> Taken(s, kind) == s
  {
  }

  lemma Unregisters(slots: seq<Slot>, origins: seq<Origin>, log: seq<Delivery>, born: set<(nat, nat)>, k: nat,
                    kind: Kind)
    requires AllOk(slots, origins, log, born) && k < |slots| && slots[k].inUse
    ensures AllOk(slots[k := Registering(slots[k], kind, None)], origins, log, born)
  {
    var s := Registering(slots[k], kind, None);
    assert SlotOk(slots[k], k, origins, log);
    forall other: Kind | s.Registered(other).Some?
      ensures slots[k].Registered(other) == s.Registered(other)
    {
    }
    SlotChanged(slots, origins, log, born, k, s);
  }

  lemma Marked(s: Slot, k: nat, origins: seq<Origin>, log: seq<Delivery>, pending: bool)
    requires SlotOk(s, k, origins, log) && s.inUse
    ensures SlotOk(s.(connectPending := pending), k, origins, log)
  {
    var t := s.(connectPending := pending);
    forall kind: Kind
      ensures t.Registered(kind) == s.Registered(kind)
    {
    }
  }
}
