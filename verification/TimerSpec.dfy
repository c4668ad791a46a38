/** Timer lists as values: order, keys, and which timers a dispatch pass fires. */
module TimerSpec {
  const MAX_EVENTS := 32

  /** A timer is known by its callback and its user data. Callback 0 is the null pointer. */
  datatype Key = Key(callback: nat, userData: nat)

  datatype Timer = Timer(due: nat, sequence: nat, key: Key)

  /** Dispatch order: by due time, then by the order of setting. */
  predicate Before(a: Timer, b: Timer) {
    a.due < b.due || (a.due == b.due && a.sequence < b.sequence)
  }

  predicate Sorted(ts: seq<Timer>) {
    forall i, j :: 0 <= i < j < |ts| ==> Before(ts[i], ts[j])
  }

  predicate UniqueKeys(ts: seq<Timer>) {
    forall i, j :: 0 <= i < j < |ts| ==> ts[i].key != ts[j].key
  }

  predicate HasKey(ts: seq<Timer>, key: Key) {
    exists i :: 0 <= i < |ts| && ts[i].key == key
  }

  /** What every reachable queue is like. */
  predicate QueueOk(ts: seq<Timer>, sequence: nat) {
    && Sorted(ts) && UniqueKeys(ts) && |ts| <= MAX_EVENTS
    && forall i :: 0 <= i < |ts| ==> ts[i].sequence <= sequence && ts[i].key.callback != 0
  }

  lemma QueueUnique(ts: seq<Timer>, sequence: nat)
    requires QueueOk(ts, sequence)
    ensures UniqueKeys(ts)
  {
  }

  function RemoveAt<T>(s: seq<T>, i: nat): (r: seq<T>)
    requires i < |s|
    ensures |r| == |s| - 1
  {
    s[..i] + s[i + 1..]
  }

  function InsertAt<T>(s: seq<T>, i: nat, x: T): (r: seq<T>)
    requires i <= |s|
    ensures |r| == |s| + 1
  {
    s[..i] + [x] + s[i..]
  }

  lemma RemovedIndex<T>(s: seq<T>, i: nat, j: nat)
    requires i < |s| && j < |s| - 1
    ensures RemoveAt(s, i)[j] == s[if j < i then j else j + 1]
  {
  }

  lemma InsertedIndex<T>(s: seq<T>, i: nat, x: T, j: nat)
    requires i <= |s| && j <= |s|
    ensures InsertAt(s, i, x)[j] == if j == i then x else s[if j < i then j else j - 1]
  {
  }

  // ---------- Filters ----------

  /** Selections of timers: not for a key, for none of some keys, set no later than `limit`, or due at `now` and set no
      later than `limit`. */
  datatype Selection =
    | NotKeyed(key: Key)
    | Untouched(keys: set<Key>)
    | NotAfter(limit: nat)
    | Ready(now: nat, limit: nat)
  {
    predicate Has(t: Timer) {
      match this
      case NotKeyed(key) => t.key != key
      case Untouched(keys) => t.key !in keys
      case NotAfter(limit) => t.sequence <= limit
      case Ready(now, limit) => t.due <= now && t.sequence <= limit
    }
  }

  function Filter(ts: seq<Timer>, p: Selection): (r: seq<Timer>)
    ensures |r| <= |ts|
  {
    if ts == [] then []
    else if p.Has(ts[0]) then [ts[0]] + Filter(ts[1..], p)
    else Filter(ts[1..], p)
  }

  /** The timers without the one for `key`. */
  function Without(ts: seq<Timer>, key: Key): seq<Timer> {
    Filter(ts, NotKeyed(key))
  }

  lemma {:induction false} FilterHas(ts: seq<Timer>, p: Selection, t: Timer)
    ensures t in Filter(ts, p) <==> t in ts && p.Has(t)
  {
    if ts == [] {
    } else {
      FilterHas(ts[1..], p, t);
      assert t in ts <==> t == ts[0] || t in ts[1..];
    }
  }

  lemma {:induction false} FilterTwice(ts: seq<Timer>, p: Selection, q: Selection)
    ensures Filter(Filter(ts, p), q) == Filter(Filter(ts, q), p)
  {
    if ts == [] {
    } else {
      FilterTwice(ts[1..], p, q);
      FilterCons(ts[0], Filter(ts[1..], p), q);
      FilterCons(ts[0], Filter(ts[1..], q), p);
    }
  }

  lemma FilterCons(t: Timer, ts: seq<Timer>, p: Selection)
    ensures Filter([t] + ts, p) == if p.Has(t) then [t] + Filter(ts, p) else Filter(ts, p)
  {
    assert ([t] + ts)[1..] == ts;
  }

  lemma {:induction false} FilterSorted(ts: seq<Timer>, p: Selection)
    requires Sorted(ts)
    ensures Sorted(Filter(ts, p))
  {
    if ts == [] {
    } else {
      FilterSorted(ts[1..], p);
      var rest := Filter(ts[1..], p);
      forall i | 0 <= i < |rest|
        ensures Before(ts[0], rest[i])
      {
        FilterHas(ts[1..], p, rest[i]);
        var j :| 0 <= j < |ts[1..]| && ts[1..][j] == rest[i];
        assert ts[1 + j] == rest[i];
      }
    }
  }

  lemma {:induction false} FilterUnique(ts: seq<Timer>, p: Selection)
    requires UniqueKeys(ts)
    ensures UniqueKeys(Filter(ts, p))
  {
    if ts == [] {
    } else {
      FilterUnique(ts[1..], p);
      var rest := Filter(ts[1..], p);
      forall i | 0 <= i < |rest|
        ensures ts[0].key != rest[i].key
      {
        FilterHas(ts[1..], p, rest[i]);
        var j :| 0 <= j < |ts[1..]| && ts[1..][j] == rest[i];
        assert ts[1 + j] == rest[i];
      }
    }
  }

  lemma {:induction false} FilterAll(ts: seq<Timer>, p: Selection)
    requires forall i :: 0 <= i < |ts| ==> p.Has(ts[i])
    ensures Filter(ts, p) == ts
  {
    if ts == [] {
    } else {
      FilterAll(ts[1..], p);
    }
  }

  lemma {:induction false} FilterConcat(a: seq<Timer>, b: seq<Timer>, p: Selection)
    ensures Filter(a + b, p) == Filter(a, p) + Filter(b, p)
  {
    if a == [] {
      assert a + b == b;
    } else {
      hide Filter;
      FilterConcat(a[1..], b, p);
      var t, rest := a[0], a[1..];
      assert a + b == [t] + (rest + b) && a == [t] + rest;
      FilterCons(t, rest + b, p);
      FilterCons(t, rest, p);
      assert [t] + (Filter(rest, p) + Filter(b, p)) == ([t] + Filter(rest, p)) + Filter(b, p);
    }
  }

  /** With unique keys, leaving a key out removes one element. */
  lemma WithoutAt(ts: seq<Timer>, i: nat)
    requires UniqueKeys(ts) && i < |ts|
    ensures Without(ts, ts[i].key) == RemoveAt(ts, i)
  {
    hide Filter;
    var p, before, after := NotKeyed(ts[i].key), ts[..i], ts[i + 1..];
    assert ts == before + ([ts[i]] + after);
    FilterConcat(before, [ts[i]] + after, p);
    FilterCons(ts[i], after, p);
    FilterAll(before, p);
    FilterAll(after, p);
  }

  lemma WithoutAbsent(ts: seq<Timer>, key: Key)
    requires !HasKey(ts, key)
    ensures Without(ts, key) == ts
  {
    FilterAll(ts, NotKeyed(key));
  }

  // ---------- Setting and cancelling ----------

  /** The place for a new timer: after every timer due no later. */
  function Place(ts: seq<Timer>, due: nat): (i: nat)
    ensures i <= |ts| && (forall j :: 0 <= j < i ==> ts[j].due <= due) && (i < |ts| ==> due < ts[i].due)
  {
    if ts == [] || due < ts[0].due then 0
    else
      var i := Place(ts[1..], due);
      assert forall j :: 0 < j < 1 + i ==> ts[j] == ts[1..][j - 1];
      1 + i
  }

  function Inserted(ts: seq<Timer>, t: Timer): seq<Timer> {
    InsertAt(ts, Place(ts, t.due), t)
  }

  predicate Accepts(ts: seq<Timer>, key: Key) {
    key.callback != 0 && (HasKey(ts, key) || |ts| < MAX_EVENTS)
  }

  /** s3eTimerSetTimer on the list: a timer that is pending is moved, whatever the capacity. */
  function AfterSet(ts: seq<Timer>, key: Key, due: nat, sequence: nat): seq<Timer> {
    if Accepts(ts, key) then Inserted(Without(ts, key), Timer(due, sequence, key)) else Without(ts, key)
  }

  lemma WithoutOk(ts: seq<Timer>, key: Key, sequence: nat)
    requires QueueOk(ts, sequence)
    ensures QueueOk(Without(ts, key), sequence) && !HasKey(Without(ts, key), key)
    ensures |Without(ts, key)| == if HasKey(ts, key) then |ts| - 1 else |ts|
  {
    FilterSorted(ts, NotKeyed(key));
    FilterUnique(ts, NotKeyed(key));
    var r := Without(ts, key);
    forall i | 0 <= i < |r|
      ensures r[i].sequence <= sequence && r[i].key.callback != 0 && r[i].key != key
    {
      FilterHas(ts, NotKeyed(key), r[i]);
      var j :| 0 <= j < |ts| && ts[j] == r[i];
    }
    if HasKey(ts, key) {
      var i :| 0 <= i < |ts| && ts[i].key == key;
      WithoutAt(ts, i);
    } else {
      WithoutAbsent(ts, key);
    }
  }

  lemma InsertedOk(ts: seq<Timer>, t: Timer)
    requires t.sequence > 0 && t.key.callback != 0 && QueueOk(ts, t.sequence - 1) && !HasKey(ts, t.key)
    requires |ts| < MAX_EVENTS
    ensures QueueOk(Inserted(ts, t), t.sequence)
  {
    InsertedSorted(ts, t);
    InsertedUnique(ts, t);
  }

  lemma InsertedSorted(ts: seq<Timer>, t: Timer)
    requires Sorted(ts) && forall i :: 0 <= i < |ts| ==> ts[i].sequence < t.sequence
    ensures Sorted(Inserted(ts, t))
  {
    var i, r := Place(ts, t.due), Inserted(ts, t);
    if i < |ts| { LaterDue(ts, i); }
    hide Place;
    forall a, b | 0 <= a < b < |r|
      ensures Before(r[a], r[b])
    {
      if a == i { assert r[b] == ts[b - 1]; }
    }
  }

  lemma InsertedUnique(ts: seq<Timer>, t: Timer)
    requires UniqueKeys(ts) && !HasKey(ts, t.key)
    ensures UniqueKeys(Inserted(ts, t)) && |Inserted(ts, t)| == |ts| + 1
    ensures forall i :: 0 <= i < |ts| + 1 ==> Inserted(ts, t)[i] == t || Inserted(ts, t)[i] in ts
  {
    hide Place;
  }

  lemma LaterDue(ts: seq<Timer>, i: nat)
    requires Sorted(ts) && i < |ts|
    ensures forall j :: i <= j < |ts| ==> ts[i].due <= ts[j].due
  {
  }

  /** Setting keeps the queue sorted with insertion order among equals, one timer per key, and within its capacity;
      a pending timer can always be set again. */
  lemma AfterSetOk(ts: seq<Timer>, key: Key, due: nat, sequence: nat)
    requires QueueOk(ts, sequence)
    ensures QueueOk(AfterSet(ts, key, due, sequence + 1), sequence + 1)
    ensures !Accepts(ts, key) ==> AfterSet(ts, key, due, sequence + 1) == ts
    ensures HasKey(ts, key) ==> Accepts(ts, key)
    ensures Accepts(ts, key) ==> Timer(due, sequence + 1, key) in AfterSet(ts, key, due, sequence + 1)
  {
    WithoutOk(ts, key, sequence);
    if Accepts(ts, key) {
      InsertedOk(Without(ts, key), Timer(due, sequence + 1, key));
    } else {
      assert !HasKey(ts, key);
      WithoutAbsent(ts, key);
    }
  }

  lemma AfterSetIs(ts: seq<Timer>, key: Key, due: nat, sequence: nat)
    ensures Accepts(ts, key) <==> key.callback != 0 && (HasKey(ts, key) || |ts| < MAX_EVENTS)
    ensures Accepts(ts, key) ==>
      AfterSet(ts, key, due, sequence) == Inserted(Without(ts, key), Timer(due, sequence, key))
    ensures !Accepts(ts, key) ==> AfterSet(ts, key, due, sequence) == Without(ts, key)
  {
  }

  // ---------- Callbacks ----------

  /** What a callback may do to the queue, some time after its start or its previous call. */
  datatype TimerOp =
    | SetOp(elapsed: nat, period: nat, callback: nat, userData: nat)
    | CancelOp(elapsed: nat, callback: nat, userData: nat)

  function KeyOf(op: TimerOp): Key {
    Key(op.callback, op.userData)
  }

  function KeysOf(ops: seq<TimerOp>): set<Key> {
    set op | op in ops :: KeyOf(op)
  }

  /** An invoked callback: its timer, and the calls it made. */
  datatype Invocation = Invocation(timer: Timer, ops: seq<TimerOp>)

  datatype QueueState = QueueState(timers: seq<Timer>, clock: nat, sequence: nat)

  /** One call of a callback: time has passed, and the timer of its key is set or gone. */
  function Perform(s: QueueState, op: TimerOp): QueueState {
    var now, key := s.clock + op.elapsed, KeyOf(op);
    match op
    case SetOp(_, period, _, _) =>
      QueueState(AfterSet(s.timers, key, now + period, s.sequence + 1), now,
                 s.sequence + if Accepts(s.timers, key) then 1 else 0)
    case CancelOp(_, _, _) => QueueState(Without(s.timers, key), now, s.sequence)
  }

  function PerformAll(s: QueueState, ops: seq<TimerOp>): QueueState {
    if ops == [] then s else Perform(PerformAll(s, ops[..|ops| - 1]), ops[|ops| - 1])
  }

  lemma PerformMore(s: QueueState, ops: seq<TimerOp>, op: TimerOp)
    ensures PerformAll(s, ops + [op]) == Perform(PerformAll(s, ops), op)
    ensures KeysOf(ops + [op]) == KeysOf(ops) + {KeyOf(op)}
  {
    assert (ops + [op])[..|ops|] == ops;
    forall key
      ensures key in KeysOf(ops + [op]) <==> key in KeysOf(ops) + {KeyOf(op)}
    {
      assert op in ops + [op];
      if key in KeysOf(ops) {
        var o :| o in ops && KeyOf(o) == key;
        assert o in ops + [op];
      }
    }
  }

  /** The queue after some callbacks of a pass, each invoked for the timer that was first. */
  function AfterCalls(s: QueueState, calls: seq<Invocation>): QueueState {
    if calls == [] then s
    else
      var before := AfterCalls(s, calls[..|calls| - 1]);
      var rest := if before.timers == [] then [] else before.timers[1..];
      PerformAll(before.(timers := rest), calls[|calls| - 1].ops)
  }

  /** Every callback was invoked for the first timer, due at `now` and set no later than `limit`. */
  ghost predicate PassRuns(s: QueueState, now: nat, limit: nat, calls: seq<Invocation>) {
    forall k :: 0 <= k < |calls| ==>
      var timers := AfterCalls(s, calls[..k]).timers;
      timers != [] && calls[k].timer == timers[0] && Ready(now, limit).Has(timers[0])
  }

  /** The pass ends when there is no such timer. */
  predicate PassOver(timers: seq<Timer>, now: nat, limit: nat) {
    timers == [] || !Ready(now, limit).Has(timers[0])
  }

  lemma CallsMore(s: QueueState, now: nat, limit: nat, calls: seq<Invocation>, call: Invocation)
    requires PassRuns(s, now, limit, calls)
    requires var timers := AfterCalls(s, calls).timers;
             timers != [] && call.timer == timers[0] && Ready(now, limit).Has(timers[0])
    ensures PassRuns(s, now, limit, calls + [call])
    ensures var before := AfterCalls(s, calls);
            AfterCalls(s, calls + [call]) == PerformAll(before.(timers := before.timers[1..]), call.ops)
  {
    hide PerformAll;
    var more := calls + [call];
    assert more[..|calls|] == calls;
    forall k | 0 <= k < |more|
      ensures var timers := AfterCalls(s, more[..k]).timers;
              timers != [] && more[k].timer == timers[0] && Ready(now, limit).Has(timers[0])
    {
      if k < |calls| { assert more[..k] == calls[..k]; }
    }
  }

  function Fired(calls: seq<Invocation>): (r: seq<Timer>)
    ensures |r| == |calls|
  {
    seq(|calls|, i requires 0 <= i < |calls| => calls[i].timer)
  }

  /** The keys each callback set or cancelled. */
  function Touched(calls: seq<Invocation>): (r: seq<set<Key>>)
    ensures |r| == |calls|
  {
    seq(|calls|, i requires 0 <= i < |calls| => KeysOf(calls[i].ops))
  }

  lemma CallsAppend(calls: seq<Invocation>, call: Invocation)
    ensures Fired(calls + [call]) == Fired(calls) + [call.timer]
    ensures Touched(calls + [call]) == Touched(calls) + [KeysOf(call.ops)]
  {
  }

  /** The timer of this key was set by some of these calls. */
  predicate SetAmong(key: Key, ops: seq<TimerOp>) {
    exists j :: 0 <= j < |ops| && ops[j].SetOp? && KeyOf(ops[j]) == key
  }

  lemma {:induction false} PerformedNew(s: QueueState, ops: seq<TimerOp>, t: Timer)
    requires t in PerformAll(s, ops).timers
    ensures t in s.timers || SetAmong(t.key, ops)
    decreases |ops|
  {
    hide AfterSet, Without;
    if ops == [] {
      assert PerformAll(s, ops) == s;
    } else {
      var front, op := ops[..|ops| - 1], ops[|ops| - 1];
      var before := PerformAll(s, front);
      AfterSetHolds(before.timers, KeyOf(op), before.clock + op.elapsed + (if op.SetOp? then op.period else 0),
                    before.sequence + 1, t);
      if t in before.timers {
        PerformedNew(s, front, t);
        if SetAmong(t.key, front) {
          var j :| 0 <= j < |front| && front[j].SetOp? && KeyOf(front[j]) == t.key;
          assert ops[j] == front[j];
        }
      } else {
        assert ops[|ops| - 1].SetOp? && KeyOf(ops[|ops| - 1]) == t.key;
      }
    }
  }

  lemma AfterSetHolds(ts: seq<Timer>, key: Key, due: nat, sequence: nat, t: Timer)
    ensures t in AfterSet(ts, key, due, sequence) ==> t in ts || t.key == key
    ensures t in Without(ts, key) ==> t in ts
  {
    hide Filter, Place;
    FilterHas(ts, NotKeyed(key), t);
    var r, timer := Without(ts, key), Timer(due, sequence, key);
    var i := Place(r, due);
    if t in Inserted(r, timer) {
      var j :| 0 <= j < |Inserted(r, timer)| && Inserted(r, timer)[j] == t;
      InsertedIndex(r, i, timer, j);
    }
  }

  /** A timer that a pass leaves behind was there before, or a callback of the pass set it. */
  lemma {:induction false} NewTimersSet(s: QueueState, calls: seq<Invocation>, t: Timer)
    requires t in AfterCalls(s, calls).timers
    ensures t in s.timers || exists i :: 0 <= i < |calls| && SetAmong(t.key, calls[i].ops)
    decreases |calls|
  {
    hide PerformAll, SetAmong;
    if calls == [] {
      assert AfterCalls(s, calls) == s;
    } else {
      var front, last := calls[..|calls| - 1], calls[|calls| - 1];
      var before := AfterCalls(s, front);
      var rest := before.(timers := if before.timers == [] then [] else before.timers[1..]);
      PerformedNew(rest, last.ops, t);
      if t in rest.timers {
        assert t in before.timers;
        NewTimersSet(s, front, t);
        if t !in s.timers {
          var i :| 0 <= i < |front| && SetAmong(t.key, front[i].ops);
          assert calls[i] == front[i];
        }
      } else {
        assert SetAmong(t.key, calls[|calls| - 1].ops);
      }
    }
  }

  // ---------- A dispatch pass ----------

  /** Timers set since `limit` are not due before `now`: the clock does not go back. */
  predicate LateOnes(ts: seq<Timer>, now: nat, limit: nat) {
    forall i :: 0 <= i < |ts| && ts[i].sequence > limit ==> ts[i].due >= now
  }

  /** If the first timer is not ready, none is. */
  lemma {:induction false} NoneReady(ts: seq<Timer>, now: nat, limit: nat)
    requires Sorted(ts) && LateOnes(ts, now, limit) && (ts != [] ==> !Ready(now, limit).Has(ts[0]))
    ensures Filter(ts, Ready(now, limit)) == []
  {
    if ts == [] {
    } else {
      var rest := ts[1..];
      assert forall i :: 0 <= i < |rest| ==> rest[i] == ts[i + 1];
      if rest != [] { assert Before(ts[0], ts[1]); }
      NoneReady(rest, now, limit);
    }
  }

  /** Set or cancelled timers leave the selection, and a new timer outside it stays outside. */
  lemma AfterSetSelects(ts: seq<Timer>, key: Key, due: nat, sequence: nat, p: Selection)
    requires !p.Has(Timer(due, sequence, key))
    ensures Filter(AfterSet(ts, key, due, sequence), p) == Without(Filter(ts, p), key)
  {
    FilterTwice(ts, NotKeyed(key), p);
    if Accepts(ts, key) {
      var t, rest := Timer(due, sequence, key), Without(ts, key);
      var i := Place(rest, due);
      assert Inserted(rest, t) == rest[..i] + ([t] + rest[i..]);
      FilterConcat(rest[..i], [t] + rest[i..], p);
      FilterCons(t, rest[i..], p);
      FilterConcat(rest[..i], rest[i..], p);
      assert rest[..i] + rest[i..] == rest;
    }
  }

  lemma WithoutSelects(ts: seq<Timer>, key: Key, p: Selection)
    ensures Filter(Without(ts, key), p) == Without(Filter(ts, p), key)
  {
    FilterTwice(ts, NotKeyed(key), p);
  }

  lemma {:induction false} TouchedMore(ts: seq<Timer>, keys: set<Key>, key: Key)
    ensures Without(Filter(ts, Untouched(keys)), key) == Filter(ts, Untouched(keys + {key}))
  {
    if ts == [] {
    } else {
      TouchedMore(ts[1..], keys, key);
      if ts[0].key !in keys { FilterCons(ts[0], Filter(ts[1..], Untouched(keys)), NotKeyed(key)); }
    }
  }

  lemma TouchedNone(ts: seq<Timer>)
    ensures Filter(ts, Untouched({})) == ts
  {
    FilterAll(ts, Untouched({}));
  }

  lemma AfterSetLate(ts: seq<Timer>, key: Key, due: nat, sequence: nat, now: nat, limit: nat)
    requires LateOnes(ts, now, limit) && due >= now
    ensures LateOnes(AfterSet(ts, key, due, sequence), now, limit) && LateOnes(Without(ts, key), now, limit)
  {
    var r := Without(ts, key);
    forall i | 0 <= i < |r| && r[i].sequence > limit
      ensures r[i].due >= now
    {
      FilterHas(ts, NotKeyed(key), r[i]);
      var j :| 0 <= j < |ts| && ts[j] == r[i];
    }
    if Accepts(ts, key) {
      var t := Timer(due, sequence, key);
      var late := Inserted(r, t);
      forall i | 0 <= i < |late| && late[i].sequence > limit
        ensures late[i].due >= now
      {
        InsertedIndex(r, Place(r, due), t, i);
      }
    }
  }

  /** A pass so far, independently of the queue: of the timers that were ready at its start, those have fired or are
      still to fire whose key no callback fired before them has touched. */
  ghost predicate Pass(ready: seq<Timer>, fired: seq<Timer>, touched: seq<set<Key>>, left: seq<Timer>) {
    && Sorted(fired) && Sorted(left) && |fired| == |touched|
    && (forall i, t :: 0 <= i < |fired| && t in left ==> Before(fired[i], t))
    && (forall t :: t in fired || t in left <==> t in ready && Spared(t, fired, touched))
  }

  /** No callback that fired before t touched its key. */
  ghost predicate Spared(t: Timer, fired: seq<Timer>, touched: seq<set<Key>>)
    requires |fired| == |touched|
  {
    forall i :: 0 <= i < |fired| && Before(fired[i], t) ==> t.key !in touched[i]
  }

  lemma PassBegins(ready: seq<Timer>)
    requires Sorted(ready)
    ensures Pass(ready, [], [], ready)
  {
  }

  lemma SparedMore(t: Timer, fired: seq<Timer>, touched: seq<set<Key>>, first: Timer, keys: set<Key>)
    requires |fired| == |touched|
    ensures Spared(t, fired + [first], touched + [keys])
         <==> Spared(t, fired, touched) && (Before(first, t) ==> t.key !in keys)
  {
    var f, k := fired + [first], touched + [keys];
    if Spared(t, f, k) {
      assert f[|fired|] == first && k[|fired|] == keys;
      forall i | 0 <= i < |fired| && Before(fired[i], t)
        ensures t.key !in touched[i]
      {
        assert f[i] == fired[i] && k[i] == touched[i];
      }
    }
  }

  /** One more timer fires, and its callback touches some keys. */
  lemma PassStep(ready: seq<Timer>, fired: seq<Timer>, touched: seq<set<Key>>, left: seq<Timer>, keys: set<Key>)
    requires Pass(ready, fired, touched, left) && left != []
    ensures Pass(ready, fired + [left[0]], touched + [keys], Filter(left[1..], Untouched(keys)))
  {
    var first, rest, left' := left[0], left[1..], Filter(left[1..], Untouched(keys));
    FilterSorted(rest, Untouched(keys));
    forall t
      ensures t in left' <==> t in rest && t.key !in keys
      ensures t in left <==> t == first || t in rest
      ensures t in rest ==> Before(first, t)
      ensures Spared(t, fired + [first], touched + [keys])
           <==> Spared(t, fired, touched) && (Before(first, t) ==> t.key !in keys)
    {
      FilterHas(rest, Untouched(keys), t);
      SparedMore(t, fired, touched, first, keys);
      if t in rest {
        var j :| 0 <= j < |rest| && rest[j] == t;
        assert left[1 + j] == t;
      }
    }
    forall t | t in fired
      ensures Before(t, first)
    {
      var j :| 0 <= j < |fired| && fired[j] == t;
      assert first in left;
    }
    PassOrdered(fired, left, left', keys);
    hide Spared, Filter;
  }

  lemma PassOrdered(fired: seq<Timer>, left: seq<Timer>, left': seq<Timer>, keys: set<Key>)
    requires Sorted(fired) && left != [] && (forall i, t :: 0 <= i < |fired| && t in left ==> Before(fired[i], t))
    requires forall t :: t in left' ==> t in left && Before(left[0], t)
    ensures Sorted(fired + [left[0]])
    ensures forall i, t :: 0 <= i < |fired| + 1 && t in left' ==> Before((fired + [left[0]])[i], t)
  {
    assert left[0] in left;
  }

  /** Of these timers, those are left that have not fired and whose key no callback has touched. */
  ghost predicate Remains(ts: seq<Timer>, fired: seq<Timer>, touched: seq<set<Key>>, left: seq<Timer>) {
    forall t :: t in left <==> t in ts && t !in fired && AllSpare(t.key, touched)
  }

  predicate AllSpare(key: Key, touched: seq<set<Key>>) {
    forall i :: 0 <= i < |touched| ==> key !in touched[i]
  }

  lemma RemainsStep(ts: seq<Timer>, fired: seq<Timer>, touched: seq<set<Key>>, left: seq<Timer>, keys: set<Key>)
    requires Remains(ts, fired, touched, left) && left != [] && Sorted(left)
    ensures Remains(ts, fired + [left[0]], touched + [keys], Filter(left[1..], Untouched(keys)))
  {
    var first, rest, left' := left[0], left[1..], Filter(left[1..], Untouched(keys));
    forall t
      ensures t in left' <==> t in ts && t !in fired + [first] && AllSpare(t.key, touched + [keys])
    {
      FilterHas(rest, Untouched(keys), t);
      SpareMore(t.key, touched, keys);
      assert t in left <==> t == first || t in rest;
      if t in rest {
        var j :| 0 <= j < |rest| && rest[j] == t;
        assert left[1 + j] == t && Before(left[0], left[1 + j]);
      }
    }
  }

  lemma SpareMore(key: Key, touched: seq<set<Key>>, keys: set<Key>)
    ensures AllSpare(key, touched + [keys]) <==> AllSpare(key, touched) && key !in keys
  {
    var more := touched + [keys];
    if AllSpare(key, more) {
      assert more[|touched|] == keys;
      forall i | 0 <= i < |touched|
        ensures key !in touched[i]
      {
        assert more[i] == touched[i];
      }
    }
  }

  lemma RemainsAll(ts: seq<Timer>, limit: nat)
    requires QueueOk(ts, limit)
    ensures Filter(ts, NotAfter(limit)) == ts && Remains(ts, [], [], ts)
  {
    FilterAll(ts, NotAfter(limit));
  }

  lemma RemainsLast(ts: seq<Timer>, fired: seq<Timer>, touched: seq<set<Key>>, now: seq<Timer>, limit: nat)
    requires Remains(ts, fired, touched, Filter(now, NotAfter(limit)))
    ensures forall t: Timer :: t.sequence <= limit ==>
              (t in now <==> t in ts && t !in fired && AllSpare(t.key, touched))
  {
    hide Filter, AllSpare;
    forall t: Timer | t.sequence <= limit
      ensures t in now <==> t in ts && t !in fired && AllSpare(t.key, touched)
    {
      FilterHas(now, NotAfter(limit), t);
    }
  }

  lemma RestOk(ts: seq<Timer>, sequence: nat)
    requires QueueOk(ts, sequence) && ts != []
    ensures QueueOk(ts[1..], sequence) && RemoveAt(ts, 0) == ts[1..]
  {
    var rest := ts[1..];
    assert forall i :: 0 <= i < |rest| ==> rest[i] == ts[i + 1];
  }

  lemma PassStarts(ts: seq<Timer>, now: nat, limit: nat)
    requires QueueOk(ts, limit)
    ensures var ready := Filter(ts, Ready(now, limit));
            LateOnes(ts, now, limit) && Pass(ready, [], [], ready)
  {
    FilterSorted(ts, Ready(now, limit));
    PassBegins(Filter(ts, Ready(now, limit)));
  }

  lemma FirstReady(ts: seq<Timer>, sequence: nat, now: nat, limit: nat)
    requires QueueOk(ts, sequence) && ts != [] && ts[0].due <= now && ts[0].sequence <= limit
    requires LateOnes(ts, now, limit)
    ensures Filter(ts, Ready(now, limit)) == [ts[0]] + Filter(ts[1..], Ready(now, limit))
    ensures Filter(ts, NotAfter(limit)) == [ts[0]] + Filter(ts[1..], NotAfter(limit))
    ensures LateOnes(ts[1..], now, limit)
  {
    var rest := ts[1..];
    assert forall i :: 0 <= i < |rest| ==> rest[i] == ts[i + 1];
  }

  lemma NothingLeft(ts: seq<Timer>, sequence: nat, now: nat, limit: nat)
    requires QueueOk(ts, sequence) && LateOnes(ts, now, limit)
    requires ts == [] || ts[0].due > now || ts[0].sequence > limit
    ensures Filter(ts, Ready(now, limit)) == []
    ensures forall t :: t in ts && t.due <= now ==> t.sequence > limit
  {
    NoneReady(ts, now, limit);
    forall t | t in ts
      ensures !Ready(now, limit).Has(t)
    {
      FilterHas(ts, Ready(now, limit), t);
    }
  }

  /** At the end of a pass exactly the timers that were due and spared have fired. */
  lemma PassEnds(ts: seq<Timer>, now: nat, limit: nat, fired: seq<Timer>, touched: seq<set<Key>>)
    requires QueueOk(ts, limit) && Pass(Filter(ts, Ready(now, limit)), fired, touched, [])
    ensures Sorted(fired) && |fired| == |touched|
    ensures forall t :: t in fired <==> t in ts && t.due <= now && Spared(t, fired, touched)
  {
    hide Spared;
    forall t
      ensures t in Filter(ts, Ready(now, limit)) <==> t in ts && t.due <= now
    {
      FilterHas(ts, Ready(now, limit), t);
      if t in ts { var j :| 0 <= j < |ts| && ts[j] == t; }
    }
  }
}
