/** Who owns each service token, and which searches the notifications belong to. */
module ZeroconfTokens {
  import opened Options
  import opened ZeroconfCache
  import opened ZeroconfGuest

  // ---------- Ownership ----------

  /** A token that was allocated is in an entry, held by a function in progress, retired or freed: never in two
      places. */
  datatype Owner = InEntry(slot: nat, index: nat) | InFlight | Retired | Freed

  /** Tokens that no entry owns: in flight, waiting in the retired list, or freed in this order. */
  datatype Loose = Loose(inFlight: set<nat>, retired: seq<nat>, frees: seq<nat>)

  predicate NoDuplicates(s: seq<nat>) {
    forall i, j :: 0 <= i < j < |s| ==> s[i] != s[j]
  }

  predicate Holds(ss: seq<Search>, slot: nat, index: nat, t: nat) {
    slot < |ss| && index < |ss[slot].discovered| && ss[slot].discovered[index].token == Some(t)
  }

  ghost predicate EntriesOwn(ss: seq<Search>, owner: map<nat, Owner>) {
    && (forall k, i, t :: Holds(ss, k, i, t) ==> t in owner && owner[t] == InEntry(k, i))
    && (forall t :: t in owner && owner[t].InEntry? ==> Holds(ss, owner[t].slot, owner[t].index, t))
  }

  ghost predicate LooseOwn(loose: Loose, owner: map<nat, Owner>) {
    && (forall t :: t in loose.inFlight <==> t in owner && owner[t].InFlight?)
    && (forall t :: t in loose.retired <==> t in owner && owner[t].Retired?)
    && (forall t :: t in loose.frees <==> t in owner && owner[t].Freed?)
    && NoDuplicates(loose.retired) && NoDuplicates(loose.frees)
  }

  /** Every token below `next` has exactly one owner; the freed ones have been freed once. */
  ghost predicate Conserved(ss: seq<Search>, loose: Loose, owner: map<nat, Owner>, next: nat) {
    && next >= 1
    && (forall t :: t in owner <==> 1 <= t < next)
    && EntriesOwn(ss, owner) && LooseOwn(loose, owner)
  }

  lemma TokenAllocated(ss: seq<Search>, ss': seq<Search>, loose: Loose, owner: map<nat, Owner>, next: nat, k: nat,
                       i: nat)
    requires Conserved(ss, loose, owner, next)
    requires k < |ss| && i < |ss[k].discovered| && ss[k].discovered[i].token.None?
    requires |ss'| == |ss| && (forall m :: 0 <= m < |ss| && m != k ==> ss'[m] == ss[m])
    requires |ss'[k].discovered| == |ss[k].discovered| && ss'[k].discovered[i].token == Some(next)
    requires forall j :: 0 <= j < |ss[k].discovered| && j != i ==>
               ss'[k].discovered[j].token == ss[k].discovered[j].token
    ensures Conserved(ss', loose, owner[next := InEntry(k, i)], next + 1)
  {
    var owner' := owner[next := InEntry(k, i)];
    forall m, j, t | Holds(ss', m, j, t)
      ensures t in owner' && owner'[t] == InEntry(m, j)
    {
      if m != k || j != i { assert Holds(ss, m, j, t); }
    }
    forall t | t in owner' && owner'[t].InEntry?
      ensures Holds(ss', owner'[t].slot, owner'[t].index, t)
    {
      if t != next { assert Holds(ss, owner[t].slot, owner[t].index, t); }
    }
  }

  /** Entries that keep their tokens keep the ownership. */
  lemma TokensKept(ss: seq<Search>, ss': seq<Search>, loose: Loose, owner: map<nat, Owner>, next: nat)
    requires Conserved(ss, loose, owner, next) && |ss'| == |ss|
    requires forall k :: 0 <= k < |ss| ==> |ss'[k].discovered| == |ss[k].discovered|
    requires forall k, i :: 0 <= k < |ss| && 0 <= i < |ss[k].discovered| ==>
               ss'[k].discovered[i].token == ss[k].discovered[i].token
    ensures Conserved(ss', loose, owner, next)
  {
    forall k, i, t | Holds(ss', k, i, t)
      ensures t in owner && owner[t] == InEntry(k, i)
    {
      assert Holds(ss, k, i, t);
    }
    forall t | t in owner && owner[t].InEntry?
      ensures Holds(ss', owner[t].slot, owner[t].index, t)
    {
      assert Holds(ss, owner[t].slot, owner[t].index, t);
    }
  }

  /** An entry gives its token up: it is in flight until somebody retires or frees it. */
  lemma TokenTaken(ss: seq<Search>, ss': seq<Search>, loose: Loose, owner: map<nat, Owner>, next: nat, k: nat, i: nat,
                   t: nat)
    requires Conserved(ss, loose, owner, next) && Holds(ss, k, i, t)
    requires |ss'| == |ss| && (forall m :: 0 <= m < |ss| && m != k ==> ss'[m] == ss[m])
    requires |ss'[k].discovered| == |ss[k].discovered| && ss'[k].discovered[i].token.None?
    requires forall j :: 0 <= j < |ss[k].discovered| && j != i ==>
               ss'[k].discovered[j].token == ss[k].discovered[j].token
    ensures t !in loose.inFlight
    ensures Conserved(ss', loose.(inFlight := loose.inFlight + {t}), owner[t := InFlight], next)
  {
    var owner' := owner[t := InFlight];
    forall m, j, u | Holds(ss', m, j, u)
      ensures u in owner' && owner'[u] == InEntry(m, j)
    {
      assert Holds(ss, m, j, u);
    }
    forall u | u in owner' && owner'[u].InEntry?
      ensures Holds(ss', owner'[u].slot, owner'[u].index, u)
    {
      assert Holds(ss, owner[u].slot, owner[u].index, u);
    }
  }

  lemma TokenFreed(ss: seq<Search>, loose: Loose, owner: map<nat, Owner>, next: nat, t: nat)
    requires Conserved(ss, loose, owner, next) && t in loose.inFlight
    ensures t !in loose.frees
    ensures Conserved(ss, loose.(inFlight := loose.inFlight - {t}, frees := loose.frees + [t]), owner[t := Freed], next)
  {
    EntriesUntouched(ss, owner, t, Freed);
  }

  lemma TokenRetired(ss: seq<Search>, loose: Loose, owner: map<nat, Owner>, next: nat, t: nat)
    requires Conserved(ss, loose, owner, next) && t in loose.inFlight
    ensures t !in loose.retired
    ensures Conserved(ss, loose.(inFlight := loose.inFlight - {t}, retired := [t] + loose.retired), owner[t := Retired],
                      next)
  {
    EntriesUntouched(ss, owner, t, Retired);
  }

  lemma RetiredFreed(ss: seq<Search>, loose: Loose, owner: map<nat, Owner>, next: nat)
    requires Conserved(ss, loose, owner, next) && loose.retired != []
    ensures loose.retired[0] !in loose.frees
    ensures Conserved(ss, loose.(retired := loose.retired[1..], frees := loose.frees + [loose.retired[0]]),
                      owner[loose.retired[0] := Freed], next)
  {
    var t := loose.retired[0];
    assert t in loose.retired;
    EntriesUntouched(ss, owner, t, Freed);
    assert loose.retired == [t] + loose.retired[1..];
    forall u
      ensures u in loose.retired[1..] <==> u in loose.retired && u != t
    {
      if u in loose.retired && u != t {
        var j :| 0 <= j < |loose.retired| && loose.retired[j] == u;
        assert loose.retired[1..][j - 1] == u;
      }
    }
  }

  lemma EntriesUntouched(ss: seq<Search>, owner: map<nat, Owner>, t: nat, o: Owner)
    requires EntriesOwn(ss, owner) && t in owner && !owner[t].InEntry? && !o.InEntry?
    ensures EntriesOwn(ss, owner[t := o])
  {
    forall k, i, u | Holds(ss, k, i, u)
      ensures owner[t := o][u] == InEntry(k, i)
    {
      assert owner[u] == InEntry(k, i);
    }
  }

  /** When no entry holds a token and none is in flight or retired, every token ever made has been freed exactly
      once. */
  lemma AllFreedOnce(ss: seq<Search>, loose: Loose, owner: map<nat, Owner>, next: nat)
    requires Conserved(ss, loose, owner, next) && loose.inFlight == {} && loose.retired == []
    requires forall k, i :: 0 <= k < |ss| && 0 <= i < |ss[k].discovered| ==> ss[k].discovered[i].token.None?
    ensures NoDuplicates(loose.frees) && forall t :: t in loose.frees <==> 1 <= t < next
  {
    forall t | 1 <= t < next
      ensures t in loose.frees
    {
      assert owner[t].InEntry? ==> Holds(ss, owner[t].slot, owner[t].index, t);
    }
  }

  // ---------- Searches and notifications ----------

  /** Empty tables. */
  ghost predicate NoEntries(s: Search) {
    && (forall i :: 0 <= i < |s.discovered| ==> s.discovered[i] == EMPTY_ENTRY)
    && (forall j :: 0 <= j < |s.addresses| ==> !s.addresses[j].inUse)
  }

  /** Searches in use have generations of their own, and none that was stopped is still in use. */
  ghost predicate GenerationsOk(ss: seq<Search>, generation: nat, log: seq<Event>) {
    && (forall k :: 0 <= k < |ss| && ss[k].inUse ==> 1 <= ss[k].generation <= generation)
    && (forall k, m :: 0 <= k < m < |ss| && ss[k].inUse && ss[m].inUse ==> ss[k].generation != ss[m].generation)
    && (forall j :: 0 <= j < |log| ==> log[j].generation <= generation)
    && (forall j, k :: 0 <= j < |log| && log[j].Stopped? && 0 <= k < |ss| && ss[k].inUse ==>
          ss[k].generation != log[j].generation)
  }

  /** Nothing is said about a search after it was stopped. */
  ghost predicate SilentAfterStop(log: seq<Event>) {
    forall i, j :: 0 <= i < j < |log| && log[i].Stopped? ==> log[j].generation != log[i].generation
  }

  /** Only complete entries are reported found. */
  ghost predicate FoundComplete(log: seq<Event>) {
    forall j :: 0 <= j < |log| && log[j].Found? ==> log[j].entry.Complete()
  }

  ghost predicate LogOk(ss: seq<Search>, generation: nat, log: seq<Event>) {
    GenerationsOk(ss, generation, log) && SilentAfterStop(log) && FoundComplete(log)
  }

  lemma LogAppend(ss: seq<Search>, generation: nat, log: seq<Event>, k: nat, e: Event)
    requires LogOk(ss, generation, log) && k < |ss| && ss[k].inUse && !e.Stopped? && e.generation == ss[k].generation
    requires e.Found? ==> e.entry.Complete()
    ensures LogOk(ss, generation, log + [e])
  {
  }

  lemma LogStop(ss: seq<Search>, generation: nat, log: seq<Event>, k: nat)
    requires LogOk(ss, generation, log) && k < |ss| && ss[k].inUse
    ensures LogOk(ss[k := EmptySearch()], generation, log + [Stopped(ss[k].generation)])
  {
  }

  lemma LogStart(ss: seq<Search>, generation: nat, log: seq<Event>, k: nat, s: Search)
    requires LogOk(ss, generation, log) && k < |ss| && s.inUse && s.generation == generation + 1
    ensures LogOk(ss[k := s], generation + 1, log)
  {
  }

  lemma LogSlotKept(ss: seq<Search>, generation: nat, log: seq<Event>, k: nat, s: Search)
    requires LogOk(ss, generation, log) && k < |ss|
    requires s.inUse ==> ss[k].inUse && s.generation == ss[k].generation
    ensures LogOk(ss[k := s], generation, log)
  {
  }

  // ---------- Notified entries and the guest ----------

  /** An entry of a search of this generation is notified exactly if the guest knows its token, from that search. */
  ghost predicate EntryHeard(e: Entry, generation: nat, log: seq<Event>) {
    e.token.Some? ==>
      var t := e.token.value;
      if e.notified then Guest(log, t).Known? && Finder(log, t) == generation else Guest(log, t).Unknown?
  }

  ghost predicate TokensHeard(ss: seq<Search>, log: seq<Event>, next: nat) {
    && (forall k, i :: 0 <= k < |ss| && 0 <= i < |ss[k].discovered| ==>
          EntryHeard(ss[k].discovered[i], ss[k].generation, log))
    && (forall t :: t >= next ==> Guest(log, t).Unknown?)
    && (forall t :: !Guest(log, t).Confused?)
  }

  /** What the guest knows from a search that was not stopped is still in an entry: nothing is forgotten untold. */
  ghost predicate KnownHeld(owner: map<nat, Owner>, log: seq<Event>) {
    forall t :: Guest(log, t).Known? && Stopped(Finder(log, t)) !in log ==> t in owner && owner[t].InEntry?
  }

  /** Two logs say the same about every token except one. */
  ghost predicate SameBut(log: seq<Event>, log': seq<Event>, token: nat) {
    forall t :: t != token ==> Guest(log', t) == Guest(log, t)
  }

  /** Two logs have every token found by the same search, except one. */
  ghost predicate SameFinder(log: seq<Event>, log': seq<Event>, token: nat) {
    forall t :: t != token ==> Finder(log', t) == Finder(log, t)
  }

  lemma AppendSameBut(log: seq<Event>, e: Event)
    requires !e.Stopped?
    ensures SameBut(log, log + [e], e.token) && SameFinder(log, log + [e], e.token)
    ensures Guest(log + [e], e.token) == Heard(Guest(log, e.token), e)
    ensures Finder(log + [e], e.token) == if e.Found? then e.generation else Finder(log, e.token)
  {
    forall t
      ensures Guest(log + [e], t) == if e.About(t) then Heard(Guest(log, t), e) else Guest(log, t)
      ensures Finder(log + [e], t) == if e.Found? && e.token == t then e.generation else Finder(log, t)
    {
      GuestHears(log, e, t);
    }
  }

  /** One entry changes its token's standing together with the log; no other entry holds that token. */
  lemma HeardStep(ss: seq<Search>, log: seq<Event>, next: nat, owner: map<nat, Owner>, loose: Loose,
                  k: nat, i: nat, e: Entry, log': seq<Event>, t: nat, next': nat)
    requires Conserved(ss, loose, owner, next) && TokensHeard(ss, log, next)
    requires k < |ss| && i < |ss[k].discovered| && ss[k].discovered[i].token == Some(t)
    requires SameBut(log, log', t) && SameFinder(log, log', t)
    requires !Guest(log', t).Confused? && next <= next' && EntryHeard(e, ss[k].generation, log')
    ensures TokensHeard(ss[k := WithEntry(ss[k], i, e)], log', next')
  {
    assert Holds(ss, k, i, t);
    var ss' := ss[k := WithEntry(ss[k], i, e)];
    forall m, j | 0 <= m < |ss'| && 0 <= j < |ss'[m].discovered|
      ensures EntryHeard(ss'[m].discovered[j], ss'[m].generation, log')
    {
      if m != k || j != i {
        var f := ss[m].discovered[j];
        assert EntryHeard(f, ss[m].generation, log);
        if f.token.Some? { assert Holds(ss, m, j, f.token.value); }
      }
    }
  }

  /** Entries that keep token and standing stay in step with an unchanged log. */
  lemma HeardKept(ss: seq<Search>, log: seq<Event>, next: nat, k: nat, s: Search, next': nat)
    requires TokensHeard(ss, log, next) && k < |ss| && next <= next'
    requires forall i :: 0 <= i < |s.discovered| ==> EntryHeard(s.discovered[i], s.generation, log)
    ensures TokensHeard(ss[k := s], log, next')
  {
  }

  /** A token may leave its entry only when the guest does not know it, or its search was stopped. */
  lemma OwnerMoved(owner: map<nat, Owner>, log: seq<Event>, t: nat, o: Owner)
    requires KnownHeld(owner, log)
    requires o.InEntry? || !Guest(log, t).Known? || Stopped(Finder(log, t)) in log || (t in owner && !owner[t].InEntry?)
    ensures KnownHeld(owner[t := o], log)
  {
    hide Guest, Finder;
  }

  lemma HeldAppend(owner: map<nat, Owner>, log: seq<Event>, e: Event)
    requires KnownHeld(owner, log)
    requires e.Found? ==> e.token in owner && owner[e.token].InEntry?
    ensures KnownHeld(owner, log + [e])
  {
    hide Guest, Finder;
    forall t | Guest(log + [e], t).Known? && Stopped(Finder(log + [e], t)) !in log + [e]
      ensures t in owner && owner[t].InEntry?
    {
      GuestHears(log, e, t);
    }
  }
}
