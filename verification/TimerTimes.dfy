/** When timers fire: what setting and cancelling leave in the queue, field by field, and which pass fires a timer. */
module TimerTimes {
  import opened TimerSpec

  /** A timer is accepted with a callback, if there is one for the key already, or if fewer than 32 are pending. */
  predicate Accepted(ts: seq<Timer>, callback: nat, userData: nat) {
    callback != 0 && (|ts| < 32 || exists t :: t in ts && t.key == Key(callback, userData))
  }

  /** Setting a timer replaces the one of its key by one that is due a period from now, and was set last. If it is not
      accepted, there is none of that key afterwards. Timers of other keys stay. */
  lemma SetExact(s: QueueState, elapsed: nat, period: nat, callback: nat, userData: nat)
    ensures var u := Perform(s, SetOp(elapsed, period, callback, userData));
            && u.clock == s.clock + elapsed
            && (if Accepted(s.timers, callback, userData) then
                  && u.sequence == s.sequence + 1
                  && forall t :: t in u.timers <==>
                       || t == Timer(s.clock + elapsed + period, s.sequence + 1, Key(callback, userData))
                       || (t in s.timers && t.key != Key(callback, userData))
                else
                  && u.sequence == s.sequence
                  && forall t :: t in u.timers <==> t in s.timers && t.key != Key(callback, userData))
  {
    hide Place, Filter;
    var key, rest := Key(callback, userData), Without(s.timers, Key(callback, userData));
    var timer := Timer(s.clock + elapsed + period, s.sequence + 1, key);
    assert HasKey(s.timers, key) <==> exists t :: t in s.timers && t.key == key;
    forall t
      ensures t in rest <==> t in s.timers && t.key != key
    {
      FilterHas(s.timers, NotKeyed(key), t);
    }
    InsertedHas(rest, Place(rest, timer.due), timer);
  }

  lemma InsertedHas(ts: seq<Timer>, i: nat, x: Timer)
    requires i <= |ts|
    ensures forall t :: t in InsertAt(ts, i, x) <==> t == x || t in ts
  {
    assert ts == ts[..i] + ts[i..];
  }

  /** After cancelling there is no timer of that key, and those of other keys stay. */
  lemma CancelExact(s: QueueState, elapsed: nat, callback: nat, userData: nat)
    ensures var u := Perform(s, CancelOp(elapsed, callback, userData));
            && u.clock == s.clock + elapsed && u.sequence == s.sequence
            && forall t :: t in u.timers <==> t in s.timers && t.key != Key(callback, userData)
  {
    hide Filter;
    forall t
      ensures t in Without(s.timers, Key(callback, userData)) <==> t in s.timers && t.key != Key(callback, userData)
    {
      FilterHas(s.timers, NotKeyed(Key(callback, userData)), t);
    }
  }

  /** What a pass at `now` over these timers fires, whatever its callbacks call: the due ones, unless a callback that
      came before set or cancelled them. */
  ghost predicate Fires(ts: seq<Timer>, now: nat, calls: seq<Invocation>) {
    forall t :: t in Fired(calls) <==> t in ts && t.due <= now && Spared(t, Fired(calls), Touched(calls))
  }

  /** No callback sets or cancels this key. */
  predicate LeftAlone(key: Key, calls: seq<Invocation>) {
    forall i, j :: 0 <= i < |calls| && 0 <= j < |calls[i].ops| ==> KeyOf(calls[i].ops[j]) != key
  }

  /** A timer that is set fires in the first pass that starts a period later or more, and in none before, unless a
      callback of that pass sets or cancels it. */
  lemma FiresOnTime(s: QueueState, elapsed: nat, period: nat, callback: nat, userData: nat, now: nat,
                    calls: seq<Invocation>)
    requires Accepted(s.timers, callback, userData) && LeftAlone(Key(callback, userData), calls)
    requires Fires(Perform(s, SetOp(elapsed, period, callback, userData)).timers, now, calls)
    ensures (exists t :: t in Fired(calls) && t.key == Key(callback, userData)) <==> now >= s.clock + elapsed + period
  {
    hide Perform, Fired, Touched;
    SetExact(s, elapsed, period, callback, userData);
    var timer := Timer(s.clock + elapsed + period, s.sequence + 1, Key(callback, userData));
    AloneSpared(timer, calls);
    assert timer in Perform(s, SetOp(elapsed, period, callback, userData)).timers;
  }

  lemma AloneSpared(t: Timer, calls: seq<Invocation>)
    requires LeftAlone(t.key, calls)
    ensures Spared(t, Fired(calls), Touched(calls))
  {
    forall i | 0 <= i < |calls|
      ensures t.key !in Touched(calls)[i]
    {
      forall op | op in calls[i].ops
        ensures KeyOf(op) != t.key
      {
        var j :| 0 <= j < |calls[i].ops| && calls[i].ops[j] == op;
      }
    }
  }

  /** A timer that is cancelled does not fire in the next pass. */
  lemma CancelledSilent(s: QueueState, elapsed: nat, callback: nat, userData: nat, now: nat, calls: seq<Invocation>)
    requires Fires(Perform(s, CancelOp(elapsed, callback, userData)).timers, now, calls)
    ensures forall t :: t in Fired(calls) ==> t.key != Key(callback, userData)
  {
    hide Perform, Fired, Touched, Spared;
    CancelExact(s, elapsed, callback, userData);
  }
}
