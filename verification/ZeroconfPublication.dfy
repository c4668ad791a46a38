/** What a publication comes to for those who receive it: the records they read, the questions it answers, and how often
    it is repeated. */
module ZeroconfPublication {
  import opened Options
  import opened WireNames
  import opened WireWriter
  import opened WireParse
  import opened WireBuild
  import opened WireRoundTrip
  import opened ZeroconfCache
  import opened ZeroconfText
  import opened ZeroconfPublishers

  // ---------- The names ----------

  predicate NoOuterDots(s: seq<byte>) {
    s != [] && s[0] != DOT && s[|s| - 1] != DOT
  }

  /** The full names are made of the parts: "type.domain", "name.type.domain" and "host.domain". */
  predicate Named(p: Publisher) {
    && NoOuterDots(p.serviceType) && NoOuterDots(p.domain)
    && p.serviceFqdn == p.serviceType + [DOT] + p.domain
    && p.instanceFqdn == p.name + [DOT] + p.serviceFqdn && p.hostFqdn == p.host + [DOT] + p.domain
  }

  /** Every publication is named so, after the arguments it was made from; its port is the argument with the bytes
      swapped, for the guest passes it in network order. */
  lemma DescribedNamed(generation: nat, port: u16, name: seq<byte>, serviceType: seq<byte>, domain: seq<byte>,
                       txt: seq<seq<byte>>, ipv4: Option<Ipv4>, host: seq<byte>)
    ensures match Described(generation, port, name, serviceType, domain, txt, ipv4, host)
            case Some(p) =>
              && Named(p) && Core(name, p.name) && Core(serviceType, p.serviceType)
              && Core(if domain == [] then [108, 111, 99, 97, 108] else domain, p.domain) && p.host == host
              && Some(p.ipv4) == ipv4 && p.txt == txt && p.inUse && p.generation == generation
              && U16(p.port) == [port % 256, port / 256]
            case None => true
  {
    hide Component, Core;
    ComponentExact(name, [], 65);
    ComponentExact(serviceType, [], 256);
    ComponentExact(domain, LOCAL, 256);
    var n, t, d := Component(name, [], 65), Component(serviceType, [], 256), Component(domain, LOCAL, 256);
    if t.Some? && d.Some? && serviceType != [] {
      CoreDots(serviceType, t.value);
      CoreDots(if domain == [] then LOCAL else domain, d.value);
    }
    if serviceType == [] { NothingStripped(); }
  }

  lemma CoreDots(value: seq<byte>, text: seq<byte>)
    requires Core(value, text)
    ensures NoOuterDots(text)
  {
  }

  lemma NothingStripped()
    ensures Component([], [], 256).None?
  {
  }

  lemma NotStripped(s: seq<byte>)
    requires NoOuterDots(s)
    ensures StripLeadingDots(s) == s && StripTrailingDots(s) == s
  {
  }

  /** The texts of the records are the publisher's full names. */
  lemma TextsAreNames(p: Publisher)
    requires Named(p) && Buildable(ServiceOf(p))
    ensures ServiceName(ServiceOf(p)) == p.serviceFqdn && InstanceText(ServiceOf(p)) == p.instanceFqdn
    ensures HostText(ServiceOf(p)) == p.hostFqdn
  {
    hide NameValid;
    NotStripped(p.serviceType);
    NotStripped(p.domain);
  }

  // ---------- The records ----------

  /** Labels and TXT data fit their length fields. */
  predicate Sized(p: Publisher) {
    |p.name| <= 63 && |p.host| <= 63 && TxtOk(p.txt)
  }

  /** The records of a publication as a receiver should read them: type, service and address, for two minutes, or
      withdrawn. */
  function PublishedRecords(p: Publisher, goodbye: bool): seq<Record>
    requires Sized(p)
  {
    var ttl, flush := if goodbye then 0 else 120, !goodbye;
    [Record(p.serviceFqdn, Answer, 12, 1, false, ttl, |p.name| + 3, Ptr(p.instanceFqdn)),
     Record(p.instanceFqdn, Additional, 33, 1, flush, ttl, |p.host| + 9, Srv(0, 0, p.port, p.hostFqdn)),
     Record(p.instanceFqdn, Additional, 16, 1, flush, ttl, TxtLength(p.txt), Txt(TxtBytes(p.txt), |p.txt|)),
     Record(p.hostFqdn, Additional, 1, 1, flush, ttl, 4, A(p.ipv4))]
  }

  /** Every packet that goes out for a publisher is read as exactly these records, if it can be read at all. */
  lemma PublicationReads(p: Publisher, goodbye: bool)
    requires Named(p) && Publication(p, goodbye).Some? && Terminated(ServiceOf(p))
    ensures Buildable(ServiceOf(p)) && Sized(p) && |Publication(p, goodbye).value| <= 2048
    ensures Parseable(ServiceOf(p)) ==>
      var packet := Publication(p, goodbye).value;
      ParseAll(packet)
      == Success((Packet(Header(0, 0x8400, 0, 1, 0, 3), [], PublishedRecords(p, goodbye)), |packet|))
    ensures !Parseable(ServiceOf(p)) ==> ParseAll(Publication(p, goodbye).value).Failure?
  {
    hide ParseAll, Parseable, ServicePacket, TxtBytes, TxtLength, Terminated, ServiceName, InstanceText, HostText;
    TextsAreNames(p);
    ServiceRoundTrip(ServiceOf(p), OptionsOf(goodbye));
  }

  // ---------- Questions ----------

  /** A record answers a question of its class about its name and type, or about any type. */
  predicate Answers(r: Record, q: Question) {
    q.class_ == r.class_ && NameMatches(q.name, r.owner) && (q.qtype == r.rtype || q.qtype == 255)
  }

  /** A publisher answers a question exactly if one of the records of its publication does. */
  lemma AsksExact(p: Publisher, q: Question)
    requires Named(p) && Sized(p)
    ensures Asks(p, q) <==>
              exists i :: 0 <= i < |PublishedRecords(p, false)| && Answers(PublishedRecords(p, false)[i], q)
  {
    hide NameMatches, TxtBytes, TxtLength;
    var records := PublishedRecords(p, false);
    if Asks(p, q) {
      assert Answers(records[0], q) || Answers(records[1], q) || Answers(records[2], q) || Answers(records[3], q);
    }
  }

  predicate Answered(p: Publisher, q: Question)
    requires Sized(p)
  {
    exists i :: 0 <= i < |PublishedRecords(p, false)| && Answers(PublishedRecords(p, false)[i], q)
  }

  /** So a query is answered exactly if it has such a question, and to the asker alone exactly if such a question wants
      that. */
  lemma AskedExact(p: Publisher, questions: seq<Question>)
    requires Named(p) && Sized(p)
    ensures Asked(p, questions) <==> exists q :: q in questions && Answered(p, q)
    ensures AskedUnicast(p, questions) <==> exists q :: q in questions && Answered(p, q) && q.unicastResponse
  {
    hide Asks, Answered, Named, Sized;
    forall q | q in questions
      ensures Asks(p, q) <==> Answered(p, q)
    {
      OneAnswered(p, q);
    }
  }

  lemma OneAnswered(p: Publisher, q: Question)
    requires Named(p) && Sized(p)
    ensures Asks(p, q) <==> Answered(p, q)
  {
    hide Asks, Named, Sized, Answers;
    AsksExact(p, q);
  }

  // ---------- Repetition ----------

  /** A publisher with something to send: an update whose time has come, or a repetition. */
  predicate Owes(p: Publisher, now: nat) {
    p.inUse && ((p.pending && p.due <= now) || p.nextAnnounce <= now)
  }

  /** What it sends: a repetition with the address the machine has now, an update with the one it was published with. */
  function Owed(p: Publisher, now: nat, ipv4: Option<Ipv4>): Publisher {
    if (p.pending && p.due <= now) || ipv4.None? then p else p.(ipv4 := ipv4.value)
  }

  /** Whoever owes an announcement that can be built and sent makes it in this pump, and no one else makes any. */
  lemma PumpAnnounces(x: Published, now: nat, sendOk: seq<bool>, ipv4: Option<Ipv4>, y: Published)
    requires PumpDone(x, now, sendOk, ipv4, y)
    ensures x.log <= y.log
    ensures forall a :: a in y.log[|x.log|..] <==>
              exists k :: 0 <= k < |x.publishers| && Makes(x, k, now, sendOk, ipv4, a)
  {
    hide Publication, Outcome, Announced, TurnPacket, Makes;
    SentExact(x, |x.publishers|, now, sendOk, ipv4);
    assert y.log[|x.log|..] == Sent(x.publishers, |x.publishers|, now, ipv4, sendOk);
  }

  /** The announcement of publisher k in a pump. */
  predicate Makes(x: Published, k: nat, now: nat, sendOk: seq<bool>, ipv4: Option<Ipv4>, a: Announcement) {
    && k < |x.publishers| && k < |sendOk| && sendOk[k] && Owes(x.publishers[k], now)
    && Publication(Owed(x.publishers[k], now, ipv4), false) == Some(a.packet)
    && a.generation == x.publishers[k].generation && a.at == now && a.txt == x.publishers[k].txt
  }

  lemma {:induction false} SentExact(x: Published, n: nat, now: nat, sendOk: seq<bool>, ipv4: Option<Ipv4>)
    requires n <= |x.publishers| == |sendOk|
    ensures forall a :: a in Sent(x.publishers, n, now, ipv4, sendOk) <==>
              exists k :: 0 <= k < n && Makes(x, k, now, sendOk, ipv4, a)
    decreases n
  {
    hide Publication, Outcome, Makes, TurnPacket;
    if n == 0 {
    } else {
      SentExact(x, n - 1, now, sendOk, ipv4);
      OneSent(x, n - 1, now, sendOk, ipv4);
      var before, all := Sent(x.publishers, n - 1, now, ipv4, sendOk), Sent(x.publishers, n, now, ipv4, sendOk);
      var p := x.publishers[n - 1];
      var last := if p.inUse && Outcome(p, now, ipv4, sendOk[n - 1]).1
                  then [Announcement(p.generation, now, p.txt, TurnPacket(p, now, ipv4))] else [];
      assert all == before + last;
      forall a
        ensures a in all <==> exists k :: 0 <= k < n && Makes(x, k, now, sendOk, ipv4, a)
      {
        if a in last { assert Makes(x, n - 1, now, sendOk, ipv4, a); }
        if k :| 0 <= k < n && Makes(x, k, now, sendOk, ipv4, a) {
          if k == n - 1 { assert a in last; } else { assert a in before; }
        }
      }
    }
  }

  lemma OneSent(x: Published, k: nat, now: nat, sendOk: seq<bool>, ipv4: Option<Ipv4>)
    requires k < |x.publishers| == |sendOk|
    ensures var p := x.publishers[k];
            forall a :: Makes(x, k, now, sendOk, ipv4, a) <==>
              && p.inUse && Outcome(p, now, ipv4, sendOk[k]).1
              && a == Announcement(p.generation, now, p.txt, TurnPacket(p, now, ipv4))
  {
    hide Publication;
  }

  /** A publisher after a pump: up to date if it owed and could send, due again a second or a minute later if it could
      not, and otherwise as it was. */
  lemma PumpSettles(x: Published, now: nat, sendOk: seq<bool>, ipv4: Option<Ipv4>, y: Published, k: nat)
    requires PumpDone(x, now, sendOk, ipv4, y) && k < |x.publishers|
    ensures k < |y.publishers| == |sendOk|
    ensures var p, q := x.publishers[k], y.publishers[k];
            if !Owes(p, now) then q == p
            else if sendOk[k] && Publication(Owed(p, now, ipv4), false).Some? then
              q == Owed(p, now, ipv4).(announced := p.txt, pending := false, due := 0, lastAnnounce := now,
                                       nextAnnounce := now + 60000)
            else if p.pending && p.due <= now then q == p.(due := now + 1000)
            else q == Owed(p, now, ipv4).(nextAnnounce := now + 60000)
  {
    hide Publication;
  }

  /** The next repetition is never set later than a minute after the last announcement that went out. */
  predicate OnTime(p: Publisher) {
    p.inUse && !p.pending && p.nextAnnounce <= p.lastAnnounce + 60000
  }

  /** A run of pumps in which sending works. */
  ghost predicate Pumps(moments: seq<Published>, times: seq<nat>, sendOks: seq<seq<bool>>, ipv4s: seq<Option<Ipv4>>,
                        k: nat) {
    && |moments| == |times| + 1 == |sendOks| + 1 == |ipv4s| + 1
    && (forall j :: 0 <= j < |times| ==>
          && PumpDone(moments[j], times[j], sendOks[j], ipv4s[j], moments[j + 1])
          && k < |moments[j].publishers| && k < |sendOks[j]| && sendOks[j][k]
          && Publication(Owed(moments[j].publishers[k], times[j], ipv4s[j]), false).Some?)
  }

  /** Pumps that come no more than `interval` apart. */
  predicate Regular(times: seq<nat>, interval: nat) {
    forall j :: 0 < j < |times| ==> times[j - 1] <= times[j] <= times[j - 1] + interval
  }

  /** While sending works a publisher is never more than a minute behind after a pump, and whenever it announces again,
      no more than a minute and one pump interval have passed since its last announcement. */
  lemma {:induction false} RepeatedInTime(moments: seq<Published>, times: seq<nat>, sendOks: seq<seq<bool>>,
                                          ipv4s: seq<Option<Ipv4>>, k: nat, interval: nat, j: nat)
    requires Pumps(moments, times, sendOks, ipv4s, k) && Regular(times, interval) && j < |times|
    requires k < |moments[0].publishers| && OnTime(moments[0].publishers[k])
    requires times[0] <= moments[0].publishers[k].lastAnnounce + 60000 + interval
    ensures k < |moments[j].publishers| && k < |moments[j + 1].publishers|
    ensures var p, q := moments[j].publishers[k], moments[j + 1].publishers[k];
            && OnTime(q) && q.generation == p.generation == moments[0].publishers[k].generation
            && times[j] < q.lastAnnounce + 60000
            && (q != p ==>
                  && q.lastAnnounce == times[j] <= p.lastAnnounce + 60000 + interval
                  && exists a :: a in moments[j + 1].log && a.generation == q.generation && a.at == times[j])
    decreases j
  {
    hide PumpDone, Publication;
    if j > 0 {
      RepeatedInTime(moments, times, sendOks, ipv4s, k, interval, j - 1);
    } else {
    }
    assert PumpDone(moments[j], times[j], sendOks[j], ipv4s[j], moments[j + 1]);
    PumpSettles(moments[j], times[j], sendOks[j], ipv4s[j], moments[j + 1], k);
    PumpAnnounces(moments[j], times[j], sendOks[j], ipv4s[j], moments[j + 1]);
    var p := moments[j].publishers[k];
    if Owes(p, times[j]) {
      var a := Announcement(p.generation, times[j], p.txt, Publication(Owed(p, times[j], ipv4s[j]), false).value);
      assert Makes(moments[j], k, times[j], sendOks[j], ipv4s[j], a);
      assert a in moments[j + 1].log[|moments[j].log|..];
    }
  }

  /** A new publication is on time, and so is one that has just been announced. */
  lemma NewIsOnTime(p: Publisher, now: nat)
    requires p.inUse
    ensures OnTime(Announced(p, now)) && Announced(p, now).lastAnnounce == now
    ensures Announced(p, now).announced == p.txt && Announced(p, now).nextAnnounce == now + 60000
  {
  }
}
