/** Asynchronous DNS lookups: the guest's thread and one worker thread per lookup, interleaved at every step. */
module DnsLookup {
  import opened Options

  /** Where a worker thread is: resolving (which reads the lookup), about to publish its result under the mutex, on
      its way out with what it read of the detached flag, or gone. */
  datatype Worker = NotStarted | Resolving | Publishing | Exiting(mustFree: bool) | Exited

  /** One lookup object. `frees` counts how often it was freed and `calls` how often its callback was invoked; `taken`
      says that a pump took it, `cancelledBefore` that it was cancelled while it was still current. */
  datatype Lookup = Lookup(callback: bool, cancelled: bool, done: bool, detached: bool, worker: Worker,
                           frees: nat, calls: nat, taken: bool, cancelledBefore: bool)

  const NEW_LOOKUP := Lookup(true, false, false, false, NotStarted, 0, 0, false, false)

  /** Where the guest's thread is inside the lookup functions; Ready is outside them, or inside a callback. */
  datatype Main =
    | Ready
    | Published(id: nat) | CreateFailed(id: nat) | Discarding(id: nat)
    | Joining(id: nat) | Deciding(id: nat) | Freeing(id: nat)
    | ShutJoining(id: nat) | ShutClearing(id: nat)
  {
    predicate At(i: nat) {
      !Ready? && id == i
    }

    /** Steps at which the object is also the current one. */
    predicate Shared() {
      Published? || CreateFailed? || ShutJoining? || ShutClearing?
    }
  }

  /** `stack` holds the lookups whose callbacks are running, innermost first. `fault` is set by any access to a freed
      object. */
  datatype State = State(lookups: seq<Lookup>, current: Option<nat>, main: Main, stack: seq<nat>, fault: bool)

  const START := State([], None, Ready, [], false)

  /** The atomic steps: what a thread does between two points at which another may run. A critical section of the
      mutex is one step. The results of pthread_create and pthread_detach are free. */
  datatype Action =
    | Begin | Create(ok: bool) | ClearFailed | Discard
    | Cancel
    | Pump | Join | Decide | Return | Free
    | Shutdown(detachOk: bool) | ShutJoin | ShutClear
    | Resolve(id: nat) | Publish(id: nat) | Exit(id: nat)

  // ---------- Steps ----------

  predicate Known(s: State, id: nat) {
    id < |s.lookups|
  }

  /** Writing an object: a fault if it was freed, or does not exist. */
  function With(s: State, id: nat, l: Lookup): State {
    if !Known(s, id) then s.(fault := true)
    else s.(lookups := s.lookups[id := l], fault := s.fault || s.lookups[id].frees > 0)
  }

  function Freed(s: State, id: nat): State {
    if !Known(s, id) then s.(fault := true) else With(s, id, s.lookups[id].(frees := s.lookups[id].frees + 1))
  }

  /** Reading an object. */
  function Read(s: State, id: nat): State {
    if Known(s, id) then With(s, id, s.lookups[id]) else s.(fault := true)
  }

  /** The thread of a lookup has ended, so that a join returns. */
  predicate Ended(s: State, id: nat) {
    Known(s, id) && s.lookups[id].worker.Exited?
  }

  /** One step of the guest's thread, if it is possible now. */
  function MainStep(s: State, a: Action): Option<State> {
    match a
    case Begin =>
      if !s.main.Ready? then None
      else
        var id := |s.lookups|;
        var t := s.(lookups := s.lookups + [NEW_LOOKUP]);
        if s.current.Some? then Some(t.(main := Discarding(id)))
        else Some(t.(current := Some(id), main := Published(id)))
    case Create(ok) =>
      if !s.main.Published? then None
      else if ok && Known(s, s.main.id) then
        Some(With(s, s.main.id, s.lookups[s.main.id].(worker := Resolving)).(main := Ready))
      else Some(s.(main := CreateFailed(s.main.id)))
    case ClearFailed =>
      if s.main.CreateFailed? then Some(s.(current := None, main := Discarding(s.main.id))) else None
    case Discard =>
      if s.main.Discarding? then Some(Freed(s, s.main.id).(main := Ready)) else None
    case Cancel =>
      if !s.main.Ready? then None
      else if s.current.None? then Some(s)
      else Some(Silenced(s, s.current.value))
    case Pump =>
      if !s.main.Ready? then None
      else if s.current.None? then Some(s)
      else
        var id := s.current.value;
        if Known(s, id) && s.lookups[id].done then
          Some(With(s, id, s.lookups[id].(taken := true)).(current := None, main := Joining(id)))
        else Some(Read(s, id))
    case Join =>
      if s.main.Joining? && Ended(s, s.main.id) then Some(Read(s, s.main.id).(main := Deciding(s.main.id))) else None
    case Decide =>
      if !s.main.Deciding? || !Known(s, s.main.id) then None
      else
        var id, l := s.main.id, s.lookups[s.main.id];
        if !l.cancelled && l.callback then
          Some(With(s, id, l.(calls := l.calls + 1)).(main := Ready, stack := [id] + s.stack))
        else Some(Read(s, id).(main := Freeing(id)))
    case Return =>
      if s.main.Ready? && s.stack != [] then Some(s.(main := Freeing(s.stack[0]), stack := s.stack[1..])) else None
    case Free =>
      if s.main.Freeing? then Some(Freed(s, s.main.id).(main := Ready)) else None
    case Shutdown(detachOk) =>
      if !s.main.Ready? then None
      else if s.current.None? then Some(s)
      else
        var id, t := s.current.value, Silenced(s, s.current.value);
        if Known(s, id) && !s.lookups[id].done && detachOk then
          Some(With(t, id, t.lookups[id].(detached := true)).(current := None))
        else Some(t.(main := ShutJoining(id)))
    case ShutJoin =>
      if s.main.ShutJoining? && Ended(s, s.main.id) then Some(Read(s, s.main.id).(main := ShutClearing(s.main.id)))
      else None
    case ShutClear =>
      if s.main.ShutClearing?
      then Some(s.(current := if s.current == Some(s.main.id) then None else s.current, main := Freeing(s.main.id)))
      else None
    case _ => None
  }

  /** Marked cancelled, and its callback forgotten. */
  function Silenced(s: State, id: nat): (t: State)
    ensures |t.lookups| == |s.lookups|
  {
    if !Known(s, id) then s.(fault := true)
    else With(s, id, s.lookups[id].(cancelled := true, callback := false, cancelledBefore := true))
  }

  /** One step of a worker. */
  function WorkerStep(s: State, a: Action): Option<State> {
    match a
    case Resolve(id) =>
      if Known(s, id) && s.lookups[id].worker.Resolving? then Some(With(s, id, s.lookups[id].(worker := Publishing)))
      else None
    case Publish(id) =>
      if Known(s, id) && s.lookups[id].worker.Publishing?
      then Some(With(s, id, s.lookups[id].(done := true, worker := Exiting(s.lookups[id].detached))))
      else None
    case Exit(id) =>
      if !Known(s, id) || !s.lookups[id].worker.Exiting? then None
      else
        var l := s.lookups[id];
        if l.worker.mustFree then Some(With(s, id, l.(worker := Exited, frees := l.frees + 1)))
        else Some(s.(lookups := s.lookups[id := l.(worker := Exited)]))
    case _ => None
  }

  function Step(s: State, a: Action): Option<State> {
    if a.Resolve? || a.Publish? || a.Exit? then WorkerStep(s, a) else MainStep(s, a)
  }

  /** Any interleaving: steps that are not possible do not happen. */
  function Run(s: State, actions: seq<Action>): State
    decreases |actions|
  {
    if actions == [] then s
    else match Step(s, actions[0])
         case None => Run(s, actions[1..])
         case Some(t) => Run(t, actions[1..])
  }

  // ---------- The invariant ----------

  /** The worker will free the object: it was detached and has not ended. */
  predicate WorkerOwns(l: Lookup) {
    l.detached && !l.worker.Exited?
  }

  /** Somebody is still responsible for the object. */
  predicate Held(s: State, id: nat)
    requires Known(s, id)
  {
    s.current == Some(id) || s.main.At(id) || id in s.stack || WorkerOwns(s.lookups[id])
  }

  /** What holds of one lookup. */
  predicate LookupOk(s: State, id: nat)
    requires Known(s, id)
  {
    var l := s.lookups[id];
    // freed once, and exactly when nobody is responsible for it
    && l.frees == (if Held(s, id) then 0 else 1)
    // only one is responsible, except at the steps where the guest's thread works on the current one
    && (s.current == Some(id) ==> id !in s.stack && !l.detached && (s.main.At(id) ==> s.main.Shared()))
    && (s.main.At(id) ==> id !in s.stack && !l.detached && (s.main.Shared() ==> s.current == Some(id)))
    && (id in s.stack ==> !l.detached)
    // the worker
    && (l.done <==> l.worker.Exiting? || l.worker.Exited?)
    && (l.worker.Exiting? ==> l.worker.mustFree == l.detached)
    && (l.detached ==> !l.worker.NotStarted? && !l.taken)
    && (s.main.At(id) && (s.main.Published? || s.main.CreateFailed? || s.main.Discarding?) ==> l.worker.NotStarted?)
    && (s.current == Some(id) && !s.main.At(id) ==> !l.worker.NotStarted?)
    && (s.main.At(id) && s.main.ShutJoining? ==> !l.worker.NotStarted?)
    && (s.main == Joining(id) ==> l.done && l.taken)
    && (s.main == Deciding(id) ==> l.taken && l.worker.Exited?)
    && (s.main == Freeing(id) || s.main == ShutClearing(id) || id in s.stack ==> l.worker.Exited?)
    && (!Held(s, id) ==> l.worker.NotStarted? || l.worker.Exited?)
    // the callback
    && (l.callback <==> !l.cancelledBefore) && (l.cancelled <==> l.cancelledBefore)
    && (l.taken ==> s.current != Some(id) && l.done)
    && l.calls == (if l.taken && !l.cancelledBefore && s.main != Joining(id) && s.main != Deciding(id) then 1 else 0)
    && (id in s.stack ==> l.taken && !l.cancelledBefore)
  }

  predicate Inv(s: State) {
    && !s.fault
    && (s.current.Some? ==> Known(s, s.current.value))
    && (!s.main.Ready? ==> Known(s, s.main.id))
    && (forall i :: 0 <= i < |s.stack| ==> Known(s, s.stack[i]))
    && (forall i, j :: 0 <= i < j < |s.stack| ==> s.stack[i] != s.stack[j])
    && (forall id :: 0 <= id < |s.lookups| ==> LookupOk(s, id))
  }

  lemma StartOk()
    ensures Inv(START)
  {
  }

  /** What the invariant says about the object at hand. */
  lemma AtHand(s: State)
    requires Inv(s)
    ensures s.current.Some? ==> Known(s, s.current.value) && LookupOk(s, s.current.value)
    ensures !s.main.Ready? ==> Known(s, s.main.id) && LookupOk(s, s.main.id)
    ensures s.stack != [] ==> Known(s, s.stack[0]) && LookupOk(s, s.stack[0])
    ensures s.stack != [] ==> forall id :: id in s.stack <==> id == s.stack[0] || id in s.stack[1..]
    ensures s.stack != [] ==> s.stack[0] !in s.stack[1..]
  {
    if s.stack != [] { assert s.stack == [s.stack[0]] + s.stack[1..]; }
  }

  lemma WorkerKeeps(s: State, a: Action)
    requires Inv(s) && WorkerStep(s, a).Some?
    ensures Inv(WorkerStep(s, a).value)
  {
    var t := WorkerStep(s, a).value;
    assert LookupOk(s, a.id);
    forall id | 0 <= id < |t.lookups|
      ensures LookupOk(t, id)
    {
      assert LookupOk(s, id);
    }
  }

  lemma LookupKeeps(s: State)
    requires Inv(s) && MainStep(s, Begin).Some?
    ensures Inv(MainStep(s, Begin).value)
  {
    var t := MainStep(s, Begin).value;
    AtHand(s);
    forall id | 0 <= id < |t.lookups|
      ensures LookupOk(t, id)
    {
      if id < |s.lookups| { assert LookupOk(s, id); }
    }
  }

  /** Starting the thread, and what follows when that fails or a lookup was running. */
  lemma StartKeeps(s: State, a: Action)
    requires Inv(s) && MainStep(s, a).Some?
    requires a.Create? || a.ClearFailed? || a.Discard?
    ensures Inv(MainStep(s, a).value)
  {
    var t := MainStep(s, a).value;
    AtHand(s);
    forall id | 0 <= id < |t.lookups|
      ensures LookupOk(t, id)
    {
      assert LookupOk(s, id);
    }
  }

  /** s3eInetLookupCancel. */
  lemma CancelKeeps(s: State, a: Action)
    requires Inv(s) && MainStep(s, a).Some?
    requires a.Cancel?
    ensures Inv(MainStep(s, a).value)
  {
    var t := MainStep(s, a).value;
    AtHand(s);
    forall id | 0 <= id < |t.lookups|
      ensures LookupOk(t, id)
    {
      assert LookupOk(s, id);
    }
  }

  /** pump_dns_lookup starts to reap. */
  lemma PumpKeeps(s: State, a: Action)
    requires Inv(s) && MainStep(s, a).Some?
    requires a.Pump?
    ensures Inv(MainStep(s, a).value)
  {
    var t := MainStep(s, a).value;
    AtHand(s);
    forall id | 0 <= id < |t.lookups|
      ensures LookupOk(t, id)
    {
      assert LookupOk(s, id);
    }
  }

  /** The join, and the decision whether to call back. */
  lemma DecideKeeps(s: State, a: Action)
    requires Inv(s) && MainStep(s, a).Some?
    requires a.Join? || a.Decide?
    ensures Inv(MainStep(s, a).value)
  {
    var t := MainStep(s, a).value;
    AtHand(s);
    forall id | 0 <= id < |t.lookups|
      ensures LookupOk(t, id)
    {
      assert LookupOk(s, id);
    }
  }

  /** The end of a callback, and freeing. */
  lemma ReturnKeeps(s: State, a: Action)
    requires Inv(s) && MainStep(s, a).Some?
    requires a.Return? || a.Free?
    ensures Inv(MainStep(s, a).value)
  {
    var t := MainStep(s, a).value;
    AtHand(s);
    forall id | 0 <= id < |t.lookups|
      ensures LookupOk(t, id)
    {
      assert LookupOk(s, id);
    }
  }

  /** s3e_socket_shutdown up to the join. */
  lemma ShutdownKeeps(s: State, a: Action)
    requires Inv(s) && MainStep(s, a).Some?
    requires a.Shutdown?
    ensures Inv(MainStep(s, a).value)
  {
    var t := MainStep(s, a).value;
    AtHand(s);
    forall id | 0 <= id < |t.lookups|
      ensures LookupOk(t, id)
    {
      assert LookupOk(s, id);
    }
  }

  /** Its join, and what it clears afterwards. */
  lemma ShutJoinKeeps(s: State, a: Action)
    requires Inv(s) && MainStep(s, a).Some?
    requires a.ShutJoin? || a.ShutClear?
    ensures Inv(MainStep(s, a).value)
  {
    var t := MainStep(s, a).value;
    AtHand(s);
    forall id | 0 <= id < |t.lookups|
      ensures LookupOk(t, id)
    {
      assert LookupOk(s, id);
    }
  }

  lemma StepKeeps(s: State, a: Action)
    requires Inv(s) && Step(s, a).Some?
    ensures Inv(Step(s, a).value)
  {
    hide LookupOk, MainStep, WorkerStep;
    if a.Resolve? || a.Publish? || a.Exit? {
      WorkerKeeps(s, a);
    } else if a.Begin? {
      LookupKeeps(s);
    } else if a.Create? || a.ClearFailed? || a.Discard? {
      StartKeeps(s, a);
    } else if a.Cancel? {
      CancelKeeps(s, a);
    } else if a.Pump? {
      PumpKeeps(s, a);
    } else if a.Join? || a.Decide? {
      DecideKeeps(s, a);
    } else if a.Return? || a.Free? {
      ReturnKeeps(s, a);
    } else if a.Shutdown? {
      ShutdownKeeps(s, a);
    } else {
      ShutJoinKeeps(s, a);
    }
  }

  lemma {:induction false} RunKeeps(s: State, actions: seq<Action>)
    requires Inv(s)
    ensures Inv(Run(s, actions))
    decreases |actions|
  {
    hide Inv, Step;
    if actions == [] {
    } else {
      if Step(s, actions[0]).Some? {
        StepKeeps(s, actions[0]);
        RunKeeps(Step(s, actions[0]).value, actions[1..]);
      } else {
        RunKeeps(s, actions[1..]);
      }
    }
  }

  // ---------- Results ----------

  /** In every interleaving: no freed object is ever accessed, none is freed twice, and a callback is invoked at most
      once, by the pump that took the lookup, after its worker was done, and not if it was cancelled before that. */
  lemma AlwaysSafe(actions: seq<Action>, id: nat)
    ensures var s := Run(START, actions);
            && !s.fault
            && (Known(s, id) ==>
                  var l := s.lookups[id];
                  l.frees <= 1 && l.calls <= 1 && (l.calls == 1 ==> l.done && l.taken && !l.cancelledBefore))
  {
    StartOk();
    RunKeeps(START, actions);
    var s := Run(START, actions);
    if Known(s, id) { assert LookupOk(s, id); }
  }

  /** When the guest's thread is outside these functions, nothing is current and all threads have ended, every lookup
      has been freed exactly once, and its callback was invoked exactly if a pump took it before any cancel. */
  lemma AllFreedAtRest(actions: seq<Action>, id: nat)
    requires var s := Run(START, actions);
             && s.main.Ready? && s.stack == [] && s.current.None? && Known(s, id)
             && (s.lookups[id].worker.NotStarted? || s.lookups[id].worker.Exited?)
    ensures var l := Run(START, actions).lookups[id];
            l.frees == 1 && (l.calls == 1 <==> l.taken && !l.cancelledBefore) && l.calls <= 1
  {
    StartOk();
    RunKeeps(START, actions);
    assert LookupOk(Run(START, actions), id);
  }

  /** A cancel reaches the current lookup only: one that a pump has taken is not affected. */
  lemma CancelIsTooLate(s: State, id: nat)
    requires Inv(s) && s.main.Ready? && Known(s, id) && s.lookups[id].taken
    ensures Step(s, Cancel).Some? && Step(s, Cancel).value.lookups[id] == s.lookups[id]
  {
    assert LookupOk(s, id);
  }

  /** And one that comes in time keeps the callback from ever being invoked. */
  lemma CancelInTime(s: State, id: nat, actions: seq<Action>)
    requires Inv(s) && s.main.Ready? && s.current == Some(id)
    ensures var t := Run(Step(s, Cancel).value, actions);
            Known(t, id) && t.lookups[id].calls == 0
  {
    AtHand(s);
    var c := Step(s, Cancel).value;
    StepKeeps(s, Cancel);
    assert c.lookups[id].cancelledBefore;
    StaysCancelled(c, id, actions);
    RunKeeps(c, actions);
    assert LookupOk(Run(c, actions), id);
  }

  lemma StepStaysCancelled(s: State, id: nat, a: Action)
    requires Known(s, id) && s.lookups[id].cancelledBefore && Step(s, a).Some?
    ensures Known(Step(s, a).value, id) && Step(s, a).value.lookups[id].cancelledBefore
  {
  }

  lemma {:induction false} StaysCancelled(s: State, id: nat, actions: seq<Action>)
    requires Known(s, id) && s.lookups[id].cancelledBefore
    ensures Known(Run(s, actions), id) && Run(s, actions).lookups[id].cancelledBefore
    decreases |actions|
  {
    hide Step;
    if actions == [] {
    } else {
      if Step(s, actions[0]).Some? {
        StepStaysCancelled(s, id, actions[0]);
        StaysCancelled(Step(s, actions[0]).value, id, actions[1..]);
      } else {
        StaysCancelled(s, id, actions[1..]);
      }
    }
  }

  /** A join always returns once name resolution does: the worker it waits for has started, and ends by its own
      steps. */
  lemma JoinReturns(s: State)
    requires Inv(s) && (s.main.Joining? || s.main.ShutJoining?)
    ensures Ended(Run(s, [Resolve(s.main.id), Publish(s.main.id), Exit(s.main.id)]), s.main.id)
  {
    AtHand(s);
    var id := s.main.id;
    assert [Resolve(id), Publish(id), Exit(id)][1..] == [Publish(id), Exit(id)];
    assert [Publish(id), Exit(id)][1..] == [Exit(id)];
    var w := s.lookups[id].worker;
    var s1 := if w.Resolving? then Step(s, Resolve(id)).value else s;
    var s2 := if s1.lookups[id].worker.Publishing? then Step(s1, Publish(id)).value else s1;
    var s3 := if s2.lookups[id].worker.Exiting? then Step(s2, Exit(id)).value else s2;
    assert [Exit(id)][1..] == [];
    assert Run(s, [Resolve(id), Publish(id), Exit(id)]) == Run(s1, [Publish(id), Exit(id)]);
    assert Run(s1, [Publish(id), Exit(id)]) == Run(s2, [Exit(id)]);
    assert Run(s2, [Exit(id)]) == Run(s3, []) == s3;
  }
}
