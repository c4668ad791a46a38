/** Lookups come to an end: every one is called back or dropped, and freed, by steps that are possible. */
module DnsProgress {
  import opened Options
  import opened DnsLookup

  /** A step that is not possible does not happen. */
  function Then(s: State, a: Action): State {
    match Step(s, a)
    case None => s
    case Some(t) => t
  }

  lemma RunFirst(s: State, a: Action, rest: seq<Action>)
    ensures Run(s, [a] + rest) == Run(Then(s, a), rest)
  {
    hide Step;
    assert ([a] + rest)[1..] == rest;
  }

  lemma {:induction false} RunOn(s: State, first: seq<Action>, rest: seq<Action>)
    ensures Run(s, first + rest) == Run(Run(s, first), rest)
    decreases |first|
  {
    hide Step;
    if first == [] {
      assert first + rest == rest;
    } else {
      assert [first[0]] + first[1..] == first && first + rest == [first[0]] + (first[1..] + rest);
      RunFirst(s, first[0], first[1..] + rest);
      RunFirst(s, first[0], first[1..]);
      RunOn(Then(s, first[0]), first[1..], rest);
    }
  }

  lemma RunOne(s: State, a: Action)
    ensures Run(s, [a]) == Then(s, a)
  {
    hide Step;
    assert [a][1..] == [];
  }

  lemma RunTwo(s: State, a: Action, b: Action)
    ensures Run(s, [a, b]) == Then(Then(s, a), b)
  {
    hide Then, Step;
    assert [a, b] == [a] + [b];
    RunFirst(s, a, [b]);
    RunOne(Then(s, a), b);
  }

  lemma RunThree(s: State, a: Action, b: Action, c: Action)
    ensures Run(s, [a, b, c]) == Then(Then(Then(s, a), b), c)
  {
    hide Then, Step;
    assert [a, b, c] == [a] + [b, c];
    RunFirst(s, a, [b, c]);
    RunTwo(Then(s, a), b, c);
  }

  // ---------- The worker ----------

  /** Nothing but this lookup has changed, and of it neither its owner nor its history. */
  predicate OnlyWorked(s: State, t: State, id: nat) {
    && Known(s, id) && |t.lookups| == |s.lookups|
    && t == s.(lookups := s.lookups[id := t.lookups[id]])
    && t.lookups[id] == s.lookups[id].(worker := t.lookups[id].worker, done := t.lookups[id].done,
                                       frees := t.lookups[id].frees)
  }

  /** A worker that has started ends by its own three steps, whatever the guest's thread does not do meanwhile: the
      lookup is then done, and freed by it exactly if it was detached. */
  lemma WorkerEnds(s: State, id: nat)
    requires Inv(s) && Known(s, id) && !s.lookups[id].worker.NotStarted? && !s.lookups[id].worker.Exited?
    ensures var t := Run(s, [Resolve(id), Publish(id), Exit(id)]);
            && OnlyWorked(s, t, id) && t.lookups[id].done && t.lookups[id].worker == Exited
            && t.lookups[id].frees == if s.lookups[id].detached then 1 else 0
  {
    hide Inv, LookupOk;
    RunThree(s, Resolve(id), Publish(id), Exit(id));
    OneOk(s, id);
    var a := Then(s, Resolve(id));
    ResolveWorks(s, id);
    var b := Then(a, Publish(id));
    PublishWorks(a, id);
    ExitWorks(b, id);
  }

  /** What the invariant says of one lookup, as far as its worker is concerned. */
  lemma OneOk(s: State, id: nat)
    requires Inv(s) && Known(s, id)
    ensures var l := s.lookups[id];
            && !s.fault && (l.done <==> l.worker.Exiting? || l.worker.Exited?)
            && (l.worker.Exiting? ==> l.worker.mustFree == l.detached)
            && (!l.worker.NotStarted? && !l.worker.Exited? ==> l.frees == 0)
  {
    assert LookupOk(s, id);
  }

  lemma ResolveWorks(s: State, id: nat)
    requires Known(s, id) && !s.fault && s.lookups[id].frees == 0
    ensures var t := Then(s, Resolve(id));
            && OnlyWorked(s, t, id) && t.lookups[id].done == s.lookups[id].done && t.lookups[id].frees == 0
            && t.lookups[id].worker == if s.lookups[id].worker.Resolving? then Publishing else s.lookups[id].worker
  {
    assert s.lookups[id := s.lookups[id]] == s.lookups;
  }

  lemma PublishWorks(s: State, id: nat)
    requires Known(s, id) && !s.fault && s.lookups[id].frees == 0
    ensures var t := Then(s, Publish(id));
            && OnlyWorked(s, t, id) && t.lookups[id].frees == 0
            && (if s.lookups[id].worker.Publishing?
                then t.lookups[id].done && t.lookups[id].worker == Exiting(s.lookups[id].detached)
                else t.lookups[id] == s.lookups[id])
  {
    assert s.lookups[id := s.lookups[id]] == s.lookups;
  }

  lemma ExitWorks(s: State, id: nat)
    requires Known(s, id) && !s.fault && s.lookups[id].frees == 0 && s.lookups[id].worker.Exiting?
    ensures var t := Then(s, Exit(id));
            && OnlyWorked(s, t, id) && t.lookups[id].done == s.lookups[id].done && t.lookups[id].worker == Exited
            && t.lookups[id].frees == if s.lookups[id].worker.mustFree then 1 else 0
  {
  }

  // ---------- The pump ----------

  /** A pump before that leaves the lookup alone. */
  lemma PumpWaits(s: State, id: nat)
    requires Inv(s) && s.main.Ready? && s.current == Some(id) && !s.lookups[id].done
    ensures Run(s, [Pump]) == s
  {
    RunOne(s, Pump);
    assert LookupOk(s, id);
    assert s.lookups[id := s.lookups[id]] == s.lookups;
  }

  /** A finished lookup that was not cancelled: the pump joins its thread and calls back, once; when the callback
      returns, the lookup is freed, once. */
  lemma CalledBack(s: State, id: nat)
    requires Inv(s) && s.main.Ready? && s.current == Some(id)
    requires s.lookups[id].worker.Exited? && !s.lookups[id].cancelled
    ensures var t := Run(s, [Pump, Join, Decide]);
            && t.main.Ready? && t.stack == [id] + s.stack && t.current.None?
            && t.lookups == s.lookups[id := s.lookups[id].(taken := true, calls := 1)]
            && var u := Run(t, [Return, Free]);
               && u.main.Ready? && u.stack == s.stack && u.current.None? && !u.fault
               && u.lookups == s.lookups[id := s.lookups[id].(taken := true, calls := 1, frees := 1)]
  {
    hide Inv;
    TakenAndJoined(s, id);
    RunThree(s, Pump, Join, Decide);
    var j := Then(Then(s, Pump), Join);
    var t := Then(j, Decide);
    assert t.lookups == s.lookups[id := s.lookups[id].(taken := true, calls := 1)];
    RunTwo(t, Return, Free);
    assert ([id] + s.stack)[1..] == s.stack;
  }

  /** A cancelled one is freed without a call. */
  lemma DroppedSilently(s: State, id: nat)
    requires Inv(s) && s.main.Ready? && s.current == Some(id)
    requires s.lookups[id].worker.Exited? && s.lookups[id].cancelled
    ensures var t := Run(s, [Pump, Join, Decide] + [Free]);
            && t.main.Ready? && t.stack == s.stack && t.current.None? && !t.fault
            && t.lookups == s.lookups[id := s.lookups[id].(taken := true, frees := 1)] && t.lookups[id].calls == 0
  {
    hide Inv;
    TakenAndJoined(s, id);
    RunOn(s, [Pump, Join, Decide], [Free]);
    RunThree(s, Pump, Join, Decide);
    RunOne(Run(s, [Pump, Join, Decide]), Free);
  }

  /** The first two steps of the pump, for a lookup whose thread has ended. */
  lemma TakenAndJoined(s: State, id: nat)
    requires Inv(s) && s.main.Ready? && s.current == Some(id) && s.lookups[id].worker.Exited?
    ensures Known(s, id) && s.lookups[id].calls == 0 && s.lookups[id].frees == 0
    ensures s.lookups[id].callback == !s.lookups[id].cancelled
    ensures Then(Then(s, Pump), Join)
         == s.(lookups := s.lookups[id := s.lookups[id].(taken := true)], current := None, main := Deciding(id))
    ensures !s.fault
  {
    assert LookupOk(s, id);
    var l := s.lookups[id].(taken := true);
    assert s.lookups[id := l][id := l] == s.lookups[id := l];
  }

  /** The next lookup is accepted as soon as none is current. */
  lemma NextAccepted(s: State)
    requires Inv(s) && s.main.Ready? && s.current.None?
    ensures var t := Run(s, [Begin, Create(true)]);
            && t.main.Ready? && t.current == Some(|s.lookups|) && t.stack == s.stack && !t.fault
            && t.lookups == s.lookups + [NEW_LOOKUP.(worker := Resolving)]
  {
    RunTwo(s, Begin, Create(true));
  }

  /** The lookup is over: called back so often, and freed once. */
  predicate Concluded(s: State, id: nat, calls: nat) {
    && Known(s, id) && s.lookups[id].calls == calls && s.lookups[id].frees == 1
    && s.current.None? && s.main.Ready? && !s.fault
  }

  /** From its start to its end: whatever state a running lookup is in, its worker's steps and those of a pump lead to
      exactly one call, unless it was cancelled, and to exactly one release. */
  lemma LookupConcludes(s: State, id: nat)
    requires Inv(s) && s.main.Ready? && s.current == Some(id)
    ensures var t := Run(s, [Resolve(id), Publish(id), Exit(id)]);
            if s.lookups[id].cancelled then Concluded(Run(t, [Pump, Join, Decide] + [Free]), id, 0)
            else Concluded(Run(Run(t, [Pump, Join, Decide]), [Return, Free]), id, 1)
  {
    hide Inv, Run, Step;
    Running(s, id);
    var worker := [Resolve(id), Publish(id), Exit(id)];
    if s.lookups[id].worker.Exited? { EndedAlready(s, id); } else { WorkerEnds(s, id); }
    var t := Run(s, worker);
    RunKeeps(s, worker);
    Running(t, id);
    if s.lookups[id].cancelled { DroppedSilently(t, id); } else { CalledBack(t, id); }
  }

  lemma EndedAlready(s: State, id: nat)
    requires Known(s, id) && s.lookups[id].worker.Exited?
    ensures Run(s, [Resolve(id), Publish(id), Exit(id)]) == s
  {
    RunThree(s, Resolve(id), Publish(id), Exit(id));
  }

  lemma Running(s: State, id: nat)
    requires Inv(s) && s.main.Ready? && s.current == Some(id)
    ensures Known(s, id) && !s.lookups[id].worker.NotStarted? && !s.lookups[id].detached
  {
    assert LookupOk(s, id);
  }

  /** Whatever the callback did meanwhile, also if it started the next lookup: when it returns, its own lookup is freed,
      and nothing else changes. */
  lemma CallbackReturns(s: State)
    requires Inv(s) && s.main.Ready? && s.stack != []
    ensures var id, t := s.stack[0], Run(s, [Return, Free]);
            && Known(s, id) && s.lookups[id].frees == 0 && s.current != Some(id)
            && t == s.(lookups := s.lookups[id := s.lookups[id].(frees := 1)], stack := s.stack[1..])
  {
    hide Inv, LookupOk;
    OnStack(s);
    RunTwo(s, Return, Free);
  }

  lemma OnStack(s: State)
    requires Inv(s) && s.stack != []
    ensures var id := s.stack[0]; Known(s, id) && s.lookups[id].frees == 0 && s.current != Some(id) && !s.fault
  {
    var id := s.stack[0];
    assert Known(s, id) && id in s.stack;
    assert LookupOk(s, id);
  }

  /** A cancel marks the current lookup, whose callback is then never called (`LookupConcludes`), and nothing else. */
  lemma CancelMarks(s: State, id: nat)
    requires Inv(s) && s.main.Ready? && s.current == Some(id)
    ensures var t := Run(s, [Cancel]);
            && Known(t, id) && t.lookups[id].cancelled && t.main.Ready? && t.current == Some(id) && Inv(t)
            && t == s.(lookups := s.lookups[id := t.lookups[id]]) && t.lookups[id].worker == s.lookups[id].worker
  {
    hide Inv, LookupOk;
    Running(s, id);
    Uncalled(s, id);
    RunOne(s, Cancel);
    RunKeeps(s, [Cancel]);
  }

  // ---------- Lookups that never run, and shutdown ----------

  /** A lookup whose thread cannot be created is freed, and none is current. */
  lemma FailedStart(s: State)
    requires Inv(s) && s.main.Ready? && s.current.None?
    ensures var t := Run(s, [Begin, Create(false)] + [ClearFailed, Discard]);
            && t.main.Ready? && t.current.None? && t.stack == s.stack && !t.fault
            && t.lookups == s.lookups + [NEW_LOOKUP.(frees := 1)]
  {
    RunOn(s, [Begin, Create(false)], [ClearFailed, Discard]);
    RunTwo(s, Begin, Create(false));
    RunTwo(Then(Then(s, Begin), Create(false)), ClearFailed, Discard);
    assert (s.lookups + [NEW_LOOKUP])[|s.lookups| := NEW_LOOKUP.(frees := 1)] == s.lookups + [NEW_LOOKUP.(frees := 1)];
  }

  /** A second lookup is freed at once, and the running one is untouched. */
  lemma SecondRefused(s: State, id: nat)
    requires Inv(s) && s.main.Ready? && s.current == Some(id)
    ensures var t := Run(s, [Begin, Discard]);
            t == s.(lookups := s.lookups + [NEW_LOOKUP.(frees := 1)])
  {
    hide Inv;
    RunTwo(s, Begin, Discard);
    Uncalled(s, id);
    assert (s.lookups + [NEW_LOOKUP])[|s.lookups| := NEW_LOOKUP.(frees := 1)] == s.lookups + [NEW_LOOKUP.(frees := 1)];
  }

  /** A shutdown that can detach the thread leaves the lookup to it: nobody is called, and it is freed once. */
  lemma DetachedConcludes(s: State, id: nat)
    requires Inv(s) && s.main.Ready? && s.current == Some(id) && !s.lookups[id].done
    ensures var t := Run(s, [Shutdown(true)]);
            && Inv(t) && t.main.Ready? && t.current.None?
            && var u := Run(t, [Resolve(id), Publish(id), Exit(id)]);
               && Known(u, id) && u.lookups[id].frees == 1 && u.lookups[id].calls == 0 && u.current.None?
  {
    hide Inv;
    Running(s, id);
    RunOne(s, Shutdown(true));
    RunKeeps(s, [Shutdown(true)]);
    Uncalled(s, id);
    WorkerEnds(Run(s, [Shutdown(true)]), id);
  }

  lemma Uncalled(s: State, id: nat)
    requires Inv(s) && s.main.Ready? && s.current == Some(id)
    ensures s.lookups[id].calls == 0 && (s.lookups[id].worker.Exited? ==> s.lookups[id].done)
    ensures !s.fault && s.lookups[id].frees == 0
  {
    assert LookupOk(s, id);
  }

  /** One that cannot, or finds the lookup done, joins the thread once it has ended, and frees the lookup itself. */
  lemma ShutdownConcludes(s: State, id: nat, ok: bool)
    requires Inv(s) && s.main.Ready? && s.current == Some(id) && (ok ==> s.lookups[id].done)
    ensures var t := Run(s, [Shutdown(ok)]);
            && Inv(t) && t.main == ShutJoining(id)
            && var u := Run(Run(t, [Resolve(id), Publish(id), Exit(id)]), [ShutJoin] + [ShutClear, Free]);
               && Known(u, id) && u.lookups[id].frees == 1 && u.lookups[id].calls == 0
               && u.current.None? && u.main.Ready? && !u.fault
  {
    hide Inv, Run, OnlyWorked;
    Running(s, id);
    Uncalled(s, id);
    RunOne(s, Shutdown(ok));
    RunKeeps(s, [Shutdown(ok)]);
    var t := Run(s, [Shutdown(ok)]);
    if t.lookups[id].worker.Exited? { EndedAlready(t, id); } else { WorkerOnly(t, id); }
    Joined(Run(t, [Resolve(id), Publish(id), Exit(id)]), id);
  }

  lemma WorkerOnly(s: State, id: nat)
    requires Inv(s) && Known(s, id) && !s.lookups[id].worker.NotStarted? && !s.lookups[id].worker.Exited?
    requires !s.lookups[id].detached
    ensures var t := Run(s, [Resolve(id), Publish(id), Exit(id)]);
            && Known(t, id) && t.main == s.main && t.current == s.current && t.fault == s.fault
            && t.lookups[id].worker.Exited? && t.lookups[id].frees == 0 && t.lookups[id].calls == s.lookups[id].calls
  {
    hide Inv, Run;
    WorkerEnds(s, id);
  }

  lemma Joined(s: State, id: nat)
    requires Known(s, id) && s.main == ShutJoining(id) && s.current == Some(id) && !s.fault
    requires s.lookups[id].worker.Exited? && s.lookups[id].frees == 0
    ensures var u := Run(s, [ShutJoin] + [ShutClear, Free]);
            && Known(u, id) && u.lookups[id].frees == 1 && u.lookups[id].calls == s.lookups[id].calls
            && u.current.None? && u.main.Ready? && !u.fault
  {
    RunOn(s, [ShutJoin], [ShutClear, Free]);
    RunOne(s, ShutJoin);
    RunTwo(Then(s, ShutJoin), ShutClear, Free);
  }
}
