/** The timer queue: a linked list in dispatch order, changed in place by set, cancel and dispatch. */
module TimerQueue {
  import opened TimerSpec

  class Node {
    var due: nat
    var sequence: nat
    var callback: nat
    var userData: nat
    var next: Node?

    constructor ()
      ensures next == null
    {
      due, sequence, callback, userData, next := 0, 0, 0, 0, null;
    }

    function Value(): Timer
      reads this
    {
      Timer(due, sequence, Key(callback, userData))
    }
  }

  ghost function At(nodes: seq<Node>, i: nat): Node? {
    if i < |nodes| then nodes[i] else null
  }

  lemma AtIs(nodes: seq<Node>, i: nat)
    ensures At(nodes, i) == if i < |nodes| then nodes[i] else null
  {
  }

  /** The nodes form one chain without repetition and hold these timers. */
  ghost predicate Chained(nodes: seq<Node>, ts: seq<Timer>, repr: set<Node>)
    reads repr
  {
    && |nodes| == |ts|
    && (forall i :: 0 <= i < |nodes| ==> nodes[i] in repr && nodes[i].next == At(nodes, i + 1))
    && (forall i :: 0 <= i < |nodes| ==> nodes[i].due == ts[i].due && nodes[i].sequence == ts[i].sequence)
    && (forall i :: 0 <= i < |nodes| ==> Key(nodes[i].callback, nodes[i].userData) == ts[i].key)
    && (forall i, j :: 0 <= i < j < |nodes| ==> nodes[i] != nodes[j])
  }

  class TimerQueue {
    var head: Node?
    var sequence: nat
    /** The monotonic clock; it moves while callbacks run. */
    var clock: nat
    ghost var nodes: seq<Node>
    /** The timers the nodes hold, in order. */
    ghost var contents: seq<Timer>
    /** Every callback that was ever invoked, in order, with the calls it made. */
    ghost var invoked: seq<Invocation>
    /** The linked nodes. */
    ghost var repr: set<Node>

    ghost function State(): QueueState
      reads this`contents, this`clock, this`sequence
    {
      QueueState(contents, clock, sequence)
    }

    ghost predicate Linked()
      reads this`head, this`nodes, this`contents, this`repr, repr
    {
      head == At(nodes, 0) && Chained(nodes, contents, repr)
    }

    ghost predicate Valid()
      reads this`head, this`nodes, this`contents, this`repr, this`sequence, repr
    {
      Linked() && QueueOk(contents, sequence)
    }

    constructor ()
      ensures Valid() && contents == [] && fresh(repr)
    {
      head, sequence, clock, nodes, contents, repr, invoked := null, 0, 0, [], [], {}, [];
    }

    /** The walk of remove_timer_locked: the first timer for a key, and the node before it. */
    method Locate(callback: nat, userData: nat) returns (previous: Node?, current: Node?, ghost i: nat)
      requires Linked()
      ensures i <= |nodes| && current == At(nodes, i) && previous == (if i == 0 then null else nodes[i - 1])
      ensures i < |nodes| ==> contents[i].key == Key(callback, userData)
      ensures forall j :: 0 <= j < i ==> contents[j].key != Key(callback, userData)
    {
      previous, current, i := null, head, 0;
      while current != null && !(current.callback == callback && current.userData == userData)
        invariant i <= |nodes| && current == At(nodes, i) && previous == (if i == 0 then null else nodes[i - 1])
        invariant forall j :: 0 <= j < i ==> Key(nodes[j].callback, nodes[j].userData) != Key(callback, userData)
        decreases |nodes| - i
      {
        assert nodes[i].next == At(nodes, i + 1);
        previous, current, i := current, current.next, i + 1;
      }
    }

    /** Takes a node out of the chain. */
    method Unlink(previous: Node?, current: Node, ghost i: nat)
      requires Linked() && i < |nodes| && current == nodes[i] && previous == (if i == 0 then null else nodes[i - 1])
      modifies this`head, this`nodes, this`contents, this`repr, repr
      ensures Linked() && nodes == RemoveAt(old(nodes), i) && current.next == null && current !in repr
      ensures repr == old(repr) - {current}
      ensures contents == RemoveAt(old(contents), i) && current.Value() == old(contents)[i]
    {
      hide RemoveAt, At;
      ghost var before, ts := nodes, contents;
      ghost var after, held := RemoveAt(before, i), RemoveAt(ts, i);
      assert current.next == At(before, i + 1);
      AtIs(before, i + 1);
      if i > 0 { AtIs(before, i); }
      if previous == null {
        head := current.next;
      } else {
        previous.next := current.next;
      }
      current.next := null;
      nodes, contents, repr := after, held, repr - {current};
      forall j | 0 <= j < |after|
        ensures after[j] in repr && after[j].next == At(after, j + 1)
        ensures after[j].due == held[j].due && after[j].sequence == held[j].sequence
        ensures Key(after[j].callback, after[j].userData) == held[j].key
      {
        ghost var k := if j < i then j else j + 1;
        RemovedIndex(before, i, j);
        RemovedIndex(ts, i, j);
        if j + 1 < |after| { RemovedIndex(before, i, j + 1); }
        AtIs(after, j + 1);
        AtIs(before, k + 1);
        assert before[k] != current && old(before[k].next) == At(before, k + 1);
      }
      forall j, k | 0 <= j < k < |after|
        ensures after[j] != after[k]
      {
        RemovedIndex(before, i, j);
        RemovedIndex(before, i, k);
      }
      if |after| > 0 { RemovedIndex(before, i, 0); }
      AtIs(before, 0);
      AtIs(after, 0);
    }

    /** Puts a node into the chain. */
    method LinkIn(previous: Node?, current: Node?, timer: Node, ghost i: nat)
      requires Linked() && i <= |nodes| && current == At(nodes, i)
      requires previous == (if i == 0 then null else nodes[i - 1])
      requires timer !in repr
      modifies this`head, this`nodes, this`contents, this`repr, repr, timer
      ensures Linked() && nodes == InsertAt(old(nodes), i, timer)
      ensures contents == InsertAt(old(contents), i, old(timer.Value())) && repr == old(repr) + {timer}
    {
      hide InsertAt, At;
      ghost var before, ts, t := nodes, contents, timer.Value();
      ghost var after, held := InsertAt(before, i, timer), InsertAt(ts, i, t);
      AtIs(before, i);
      AtIs(before, 0);
      timer.next := current;
      if previous == null {
        head := timer;
      } else {
        previous.next := timer;
      }
      nodes, contents, repr := after, held, repr + {timer};
      forall j | 0 <= j < |after|
        ensures after[j] in repr && after[j].next == At(after, j + 1)
        ensures after[j].due == held[j].due && after[j].sequence == held[j].sequence
        ensures Key(after[j].callback, after[j].userData) == held[j].key
      {
        InsertedIndex(before, i, timer, j);
        InsertedIndex(ts, i, t, j);
        if j + 1 < |after| { InsertedIndex(before, i, timer, j + 1); }
        AtIs(after, j + 1);
        if j != i {
          ghost var k := if j < i then j else j - 1;
          AtIs(before, k + 1);
          assert before[k] != timer && old(before[k].next) == At(before, k + 1);
        }
      }
      forall j, k | 0 <= j < k < |after|
        ensures after[j] != after[k]
      {
        InsertedIndex(before, i, timer, j);
        InsertedIndex(before, i, timer, k);
      }
      InsertedIndex(before, i, timer, 0);
      AtIs(after, 0);
    }

    /** remove_timer_locked: unlinks the timer for a key, if there is one. */
    method RemoveTimer(callback: nat, userData: nat) returns (removed: Node?)
      requires Valid()
      modifies this`head, this`nodes, this`contents, this`repr, repr
      ensures Valid() && contents == Without(old(contents), Key(callback, userData))
      ensures removed != null <==> HasKey(old(contents), Key(callback, userData))
      ensures removed != null ==> removed in old(repr) && removed !in repr && removed.next == null
      ensures forall n :: n in repr ==> n in old(repr)
    {
      ghost var ts, key := contents, Key(callback, userData);
      WithoutOk(ts, key, sequence);
      hide QueueOk, Without, Chained, UniqueKeys;
      assert UniqueKeys(ts) by { QueueUnique(ts, sequence); }
      var previous, current, i := Locate(callback, userData);
      if current == null {
        WithoutAbsent(ts, key);
        return null;
      }
      assert ts[i].key == key;
      WithoutAt(ts, i);
      Unlink(previous, current, i);
      return current;
    }

    /** timer_count_locked */
    method Count() returns (count: nat)
      requires Linked()
      ensures count == |contents|
    {
      count := 0;
      var timer := head;
      while timer != null
        invariant count <= |nodes| && timer == At(nodes, count)
        decreases |nodes| - count
      {
        assert nodes[count].next == At(nodes, count + 1);
        count, timer := count + 1, timer.next;
      }
    }

    /** The end of s3eTimerSetTimer: the timer is linked in after every timer due no later. */
    method Link(timer: Node)
      requires Linked() && timer !in repr
      modifies this`head, this`nodes, this`contents, this`repr, repr, timer
      ensures Linked() && contents == Inserted(old(contents), old(timer.Value()))
      ensures repr == old(repr) + {timer}
    {
      ghost var ts := contents;
      var previous: Node?, current := null, head;
      ghost var i := 0;
      while current != null && current.due <= timer.due
        invariant 0 <= i <= |nodes| && current == At(nodes, i) && previous == (if i == 0 then null else nodes[i - 1])
        invariant forall j :: 0 <= j < i ==> nodes[j].due <= timer.due
        decreases |nodes| - i
      {
        assert nodes[i].next == At(nodes, i + 1);
        previous, current, i := current, current.next, i + 1;
      }
      PlaceIs(ts, timer.due, i);
      hide Place, Chained;
      LinkIn(previous, current, timer, i);
    }

    /** Fills in the unlinked timer, or a new one, and links it in. */
    method Arm(unlinked: Node?, period: nat, callback: nat, userData: nat)
      requires Linked() && (unlinked != null ==> unlinked !in repr)
      modifies this`head, this`nodes, this`contents, this`sequence, this`repr, repr,
               (if unlinked == null then {} else {unlinked})
      ensures Linked() && sequence == old(sequence) + 1
      ensures contents == Inserted(old(contents), Timer(clock + period, old(sequence) + 1, Key(callback, userData)))
      ensures forall n :: n in repr ==> n in old(repr) || n == unlinked || fresh(n)
    {
      hide Chained, Inserted, At;
      var timer: Node;
      if unlinked == null {
        timer := new Node();
      } else {
        timer := unlinked;
      }
      timer.due, timer.sequence := clock + period, sequence + 1;
      sequence := sequence + 1;
      timer.callback, timer.userData := callback, userData;
      Link(timer);
    }

    /** s3eTimerSetTimer: a timer that is already pending is moved; a new one needs room. */
    method SetTimer(period: nat, callback: nat, userData: nat) returns (ok: bool)
      requires Valid()
      modifies this`head, this`nodes, this`contents, this`sequence, this`repr, repr
      ensures Valid() && sequence == old(sequence) + if ok then 1 else 0
      ensures ok <==> Accepts(old(contents), Key(callback, userData))
      ensures contents == AfterSet(old(contents), Key(callback, userData), clock + period, old(sequence) + 1)
      ensures forall n :: n in repr ==> n in old(repr) || fresh(n)
    {
      hide QueueOk, Without, Inserted, Linked, HasKey, AfterSet, Accepts;
      ghost var ts, key := contents, Key(callback, userData);
      AfterSetOk(ts, key, clock + period, sequence);
      AfterSetIs(ts, key, clock + period, sequence + 1);
      WithoutOk(ts, key, sequence);
      var timer := RemoveTimer(callback, userData);
      if callback == 0 {
        return false;
      }
      var count := Count();
      if timer == null && count >= MAX_EVENTS {
        return false;
      }
      Arm(timer, period, callback, userData);
      return true;
    }

    /** s3eTimerCancelTimer: succeeds exactly if there was such a timer. */
    method CancelTimer(callback: nat, userData: nat) returns (ok: bool)
      requires Valid()
      modifies this`head, this`nodes, this`contents, this`repr, repr
      ensures Valid() && (ok <==> HasKey(old(contents), Key(callback, userData)))
      ensures contents == Without(old(contents), Key(callback, userData)) && forall n :: n in repr ==> n in old(repr)
    {
      if callback == 0 {
        assert forall i :: 0 <= i < |contents| ==> contents[i].key.callback != 0;
        WithoutAbsent(contents, Key(callback, userData));
        return false;
      }
      var timer := RemoveTimer(callback, userData);
      return timer != null;
    }

    // ---------- Dispatch ----------

    /** Invokes a timer's callback, which makes any calls, at any times: the queue is what they make of it, and of the
        timers set before the pass it loses exactly those whose keys they name. */
    method Invoke(timer: Timer, ghost now: nat, ghost limit: nat) returns (ghost made: seq<TimerOp>)
      requires Valid() && clock >= now && sequence >= limit && LateOnes(contents, now, limit)
      modifies this, repr
      ensures Valid() && clock >= now && sequence >= limit && LateOnes(contents, now, limit)
      ensures invoked == old(invoked) + [Invocation(timer, made)] && State() == PerformAll(old(State()), made)
      ensures Filter(contents, Ready(now, limit))
           == Filter(Filter(old(contents), Ready(now, limit)), Untouched(KeysOf(made)))
      ensures Filter(contents, NotAfter(limit))
           == Filter(Filter(old(contents), NotAfter(limit)), Untouched(KeysOf(made)))
      ensures forall n :: n in repr ==> n in old(repr) || fresh(n)
    {
      hide QueueOk, Linked, LateOnes, Filter, Without, AfterSet, Accepts, KeysOf, PerformAll;
      var ops: seq<TimerOp> := *;
      made := [];
      ghost var ready, older := Filter(contents, Ready(now, limit)), Filter(contents, NotAfter(limit));
      NothingMade(State());
      TouchedNone(ready);
      TouchedNone(older);
      while ops != []
        invariant Valid() && clock >= now && sequence >= limit && LateOnes(contents, now, limit)
        invariant invoked == old(invoked) && State() == PerformAll(old(State()), made)
        invariant Filter(contents, Ready(now, limit)) == Filter(ready, Untouched(KeysOf(made)))
        invariant Filter(contents, NotAfter(limit)) == Filter(older, Untouched(KeysOf(made)))
        invariant forall n :: n in repr ==> n in old(repr) || fresh(n)
        decreases |ops|
      {
        var op := ops[0];
        ops := ops[1..];
        ghost var ts, key := contents, KeyOf(op);
        PerformMore(old(State()), made, op);
        clock := clock + op.elapsed;
        match op {
          case SetOp(_, period, callback, userData) =>
            AfterSetSelects(ts, key, clock + period, sequence + 1, Ready(now, limit));
            AfterSetSelects(ts, key, clock + period, sequence + 1, NotAfter(limit));
            AfterSetLate(ts, key, clock + period, sequence + 1, now, limit);
            var _ := SetTimer(period, callback, userData);
          case CancelOp(_, callback, userData) =>
            WithoutSelects(ts, key, Ready(now, limit));
            WithoutSelects(ts, key, NotAfter(limit));
            AfterSetLate(ts, key, now, 0, now, limit);
            var _ := CancelTimer(callback, userData);
        }
        TouchedMore(ready, KeysOf(made), key);
        TouchedMore(older, KeysOf(made), key);
        made := made + [op];
      }
      invoked := invoked + [Invocation(timer, made)];
    }

    /** Takes the first timer off the list. */
    method PopFirst() returns (timer: Node)
      requires Valid() && head != null
      modifies this`head, this`nodes, this`contents, this`repr, repr
      ensures Valid() && old(contents) != [] && contents == old(contents)[1..]
      ensures timer == old(head) && timer.Value() == old(contents)[0] && timer !in repr
      ensures forall n :: n in repr ==> n in old(repr)
    {
      hide RemoveAt;
      timer := head;
      AtIs(nodes, 0);
      ghost var ts := contents;
      RestOk(ts, sequence);
      Unlink(null, timer, 0);
    }

    /** dispatch_due_timers. Exactly the timers that were pending and due at the start fire, once each and in order,
        except those an earlier callback of the pass set or cancelled; the other timers stay, but for those a callback
        set or cancelled. The queue is then what the recorded calls of the callbacks make of it, and nothing that was
        due is left. */
    method DispatchDue() returns (ghost calls: seq<Invocation>)
      requires Valid()
      modifies this, repr
      ensures Valid() && invoked == old(invoked) + calls && Sorted(Fired(calls))
      ensures PassRuns(old(State()), old(clock), old(sequence), calls) && State() == AfterCalls(old(State()), calls)
      ensures PassOver(contents, old(clock), old(sequence))
      ensures forall t :: t in Fired(calls) <==>
        t in old(contents) && t.due <= old(clock) && Spared(t, Fired(calls), Touched(calls))
      ensures forall t: Timer :: t.sequence <= old(sequence) ==>
        (t in contents <==> t in old(contents) && t !in Fired(calls) && AllSpare(t.key, Touched(calls)))
      ensures forall t :: t in contents && t.due <= old(clock) ==> t.sequence > old(sequence)
      ensures forall n :: n in repr ==> n in old(repr) || fresh(n)
    {
      hide QueueOk, Linked, LateOnes, Filter, Pass, Spared, Remains, AllSpare, PassRuns, AfterCalls, PerformAll,
           KeysOf, Fired, Touched;
      var now, limit := clock, sequence;
      calls := [];
      ghost var start, ready := State(), Filter(contents, Ready(now, limit));
      PassStarts(contents, now, limit);
      RemainsAll(contents, limit);
      NoCalls(start, now, limit);
      while true
        invariant Valid() && clock >= now && sequence >= limit && LateOnes(contents, now, limit)
        invariant invoked == old(invoked) + calls
        invariant PassRuns(start, now, limit, calls) && State() == AfterCalls(start, calls)
        invariant Pass(ready, Fired(calls), Touched(calls), Filter(contents, Ready(now, limit)))
        invariant Remains(old(contents), Fired(calls), Touched(calls), Filter(contents, NotAfter(limit)))
        invariant forall n :: n in repr ==> n in old(repr) || fresh(n)
        decreases |Filter(contents, NotAfter(limit))|
      {
        HeadIsFirst();
        if head == null || head.due > now || head.sequence > limit {
          NothingLeft(contents, sequence, now, limit);
          PassEnds(old(contents), now, limit, Fired(calls), Touched(calls));
          RemainsLast(old(contents), Fired(calls), Touched(calls), contents, limit);
          break;
        }
        ghost var ts := contents;
        FirstReady(ts, sequence, now, limit);
        OlderSorted(ts, sequence, limit);
        var timer := PopFirst();
        ghost var made := Invoke(timer.Value(), now, limit);
        ghost var call := Invocation(timer.Value(), made);
        PassStep(ready, Fired(calls), Touched(calls), Filter(ts, Ready(now, limit)), KeysOf(made));
        RemainsStep(old(contents), Fired(calls), Touched(calls), Filter(ts, NotAfter(limit)), KeysOf(made));
        CallsAppend(calls, call);
        CallsMore(start, now, limit, calls, call);
        calls := calls + [call];
      }
    }

    lemma HeadIsFirst()
      requires Linked()
      ensures head == null <==> contents == []
      ensures head != null ==> head.due == contents[0].due && head.sequence == contents[0].sequence
    {
    }
  }

  lemma NothingMade(s: QueueState)
    ensures PerformAll(s, []) == s && KeysOf([]) == {}
  {
  }

  lemma NoCalls(s: QueueState, now: nat, limit: nat)
    ensures PassRuns(s, now, limit, []) && AfterCalls(s, []) == s && Fired([]) == [] && Touched([]) == []
  {
  }

  lemma OlderSorted(ts: seq<Timer>, sequence: nat, limit: nat)
    requires QueueOk(ts, sequence)
    ensures Sorted(Filter(ts, NotAfter(limit)))
  {
    FilterSorted(ts, NotAfter(limit));
  }

  lemma {:induction false} PlaceIs(ts: seq<Timer>, due: nat, i: nat)
    requires i <= |ts| && (forall j :: 0 <= j < i ==> ts[j].due <= due) && (i < |ts| ==> due < ts[i].due)
    ensures Place(ts, due) == i
  {
    if i == 0 {
    } else {
      assert forall j :: 0 <= j < i - 1 ==> ts[1..][j] == ts[j + 1];
      PlaceIs(ts[1..], due, i - 1);
    }
  }
}
