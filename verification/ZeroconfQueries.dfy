/** What searches ask for, and that the publisher of what they look for answers. */
module ZeroconfQueries {
  import opened WireNames
  import opened WireParse
  import opened WireBuild
  import opened ZeroconfCache
  import opened ZeroconfApply
  import opened ZeroconfRuns
  import Publishers = ZeroconfPublishers

  /** What a search asks for. Follow-ups name the very record that is missing: the SRV and the TXT record of the
      instance, and the address of the host it runs on. */
  lemma FollowUpsExact(e: Entry, now: u64, q: Query)
    ensures q in FollowUps(e, now) <==>
      && e.inUse && !e.remove && e.hasPtr
      && (|| (q == Query(e.fqdn, 33) && !e.hasSrv && e.nextSrvQuery <= now)
          || (q == Query(e.fqdn, 16) && !e.hasTxt && e.nextTxtQuery <= now)
          || (q == Query(e.host, 1) && e.hasSrv && !e.hasIpv4 && e.nextAQuery <= now))
    ensures forall i, j :: 0 <= i < j < |FollowUps(e, now)| ==> FollowUps(e, now)[i] != FollowUps(e, now)[j]
  {
  }

  /** What was asked for is asked for again a second later at the earliest; other times stay. */
  lemma FollowedUpExact(e: Entry, now: u64)
    ensures var f, asked := FollowedUp(e, now), FollowUps(e, now);
            && f.nextSrvQuery == (if Query(e.fqdn, 33) in asked then now + 1000 else e.nextSrvQuery)
            && f.nextTxtQuery == (if Query(e.fqdn, 16) in asked then now + 1000 else e.nextTxtQuery)
            && f.nextAQuery == (if Query(e.host, 1) in asked then now + 1000 else e.nextAQuery)
            && f == e.(nextSrvQuery := f.nextSrvQuery, nextTxtQuery := f.nextTxtQuery, nextAQuery := f.nextAQuery)
  {
    FollowUpsExact(e, now, Query(e.fqdn, 33));
    FollowUpsExact(e, now, Query(e.fqdn, 16));
    FollowUpsExact(e, now, Query(e.host, 1));
  }

  /** A known instance, for which a record was held. */
  predicate Tracked(e: Entry) {
    e.inUse && e.hasPtr && !e.remove
  }

  /** A record that is withdrawn is asked for at once, whatever was asked before. */
  lemma WithdrawnAskedFor(e: Entry, now: u64)
    requires Tracked(e)
    ensures Query(e.fqdn, 33) in FollowUps(ServiceWithdrawn(e, true), now)
    ensures Query(e.fqdn, 16) in FollowUps(ServiceWithdrawn(e, false), now)
    ensures e.hasSrv ==> Query(e.host, 1) in FollowUps(AddressWithdrawn(e, e.host), now)
  {
    var f, g, h := ServiceWithdrawn(e, true), ServiceWithdrawn(e, false), AddressWithdrawn(e, e.host);
    FollowUpsExact(f, now, Query(e.fqdn, 33));
    FollowUpsExact(g, now, Query(e.fqdn, 16));
    FollowUpsExact(h, now, Query(e.host, 1));
  }

  /** So is one that expires, as long as the PTR record has not. */
  lemma ExpiredAskedFor(e: Entry, now: u64)
    requires Tracked(e) && Tracked(ExpiredEntry(e, now))
    ensures var f := ExpiredEntry(e, now);
            && (e.hasSrv && !f.hasSrv ==> Query(e.fqdn, 33) in FollowUps(f, now))
            && (e.hasTxt && !f.hasTxt ==> Query(e.fqdn, 16) in FollowUps(f, now))
            && (e.hasIpv4 && !f.hasIpv4 && f.hasSrv ==> Query(e.host, 1) in FollowUps(f, now))
  {
    var f := ExpiredEntry(e, now);
    FollowUpsExact(f, now, Query(e.fqdn, 33));
    FollowUpsExact(f, now, Query(e.fqdn, 16));
    FollowUpsExact(f, now, Query(e.host, 1));
  }

  /** And so is the address of a host an instance moves to, unless it is cached. */
  lemma MovedAskedFor(e: Entry, port: u16, host: seq<byte>, expires: u64, now: u64)
    requires Tracked(e) && e.host != [] && !NameMatches(e.host, host)
    ensures Query(host, 1) in FollowUps(SrvAnnounced(e, port, host, expires), now)
  {
    hide NameMatches;
    FollowUpsExact(SrvAnnounced(e, port, host, expires), now, Query(host, 1));
  }

  /** Every query fits the buffer of 512 bytes it is built in. */
  lemma QueryFits(name: seq<byte>, qtype: u16)
    requires NameValid(name)
    ensures |QueryBytes(name, qtype, false)| <= 271
  {
  }

  /** The question a query packet carries. */
  function QuestionOf(q: Query): Question {
    Question(q.name, q.qtype, 1, false)
  }

  /** So the publisher of an instance answers whatever a search asks about it. */
  lemma FollowUpsAnswered(p: Publishers.Publisher, e: Entry, now: u64, q: Query)
    requires q in FollowUps(e, now) && NameMatches(e.fqdn, p.instanceFqdn)
    requires e.hasSrv ==> NameMatches(e.host, p.hostFqdn)
    ensures Publishers.Asks(p, QuestionOf(q))
  {
    hide NameMatches;
  }

  /** A search that is due asks for the instances of its service, once; publishers of that service answer. */
  lemma {:induction false} RequeriesExact(ss: seq<Search>, now: u64)
    ensures forall q :: q in Requeries(ss, now) <==>
              exists k :: 0 <= k < |ss| && ss[k].inUse && ss[k].nextQuery <= now && q == Query(ss[k].serviceFqdn, 12)
    ensures |Requeries(ss, now)| <= |ss|
    decreases |ss|
  {
    if ss == [] {
    } else {
      var front, s := ss[..|ss| - 1], ss[|ss| - 1];
      RequeriesExact(front, now);
      forall q
        ensures q in Requeries(ss, now) <==>
          exists k :: 0 <= k < |ss| && ss[k].inUse && ss[k].nextQuery <= now && q == Query(ss[k].serviceFqdn, 12)
      {
        if q in Requeries(front, now) {
          var k :| 0 <= k < |front| && front[k].inUse && front[k].nextQuery <= now
                   && q == Query(front[k].serviceFqdn, 12);
          assert ss[k] == front[k];
        }
        if k :| 0 <= k < |ss| && ss[k].inUse && ss[k].nextQuery <= now && q == Query(ss[k].serviceFqdn, 12) {
          if k < |front| { assert front[k] == ss[k]; } else { assert ss[k] == s; }
        }
      }
    }
  }

  lemma RequeriesAnswered(p: Publishers.Publisher, ss: seq<Search>, now: u64, q: Query)
    requires q in Requeries(ss, now)
    requires forall k :: 0 <= k < |ss| ==> NameMatches(ss[k].serviceFqdn, p.serviceFqdn)
    ensures Publishers.Asks(p, QuestionOf(q))
  {
    hide NameMatches;
    RequeriesExact(ss, now);
  }

  /** After asking, a search does not ask again for two seconds. */
  lemma RequeriedExact(s: Search, now: u64)
    ensures Requeried(s, now).nextQuery == if s.inUse && s.nextQuery <= now then now + 2000 else s.nextQuery
    ensures Requeried(s, now) == s.(nextQuery := Requeried(s, now).nextQuery)
  {
  }
}
