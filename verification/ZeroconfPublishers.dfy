/** Published services: announcements, their rate, and the answers to queries. */
module ZeroconfPublishers {
  import opened Options
  import opened WireNames
  import opened WireParse
  import opened WireBuild
  import opened ZeroconfCache
  import opened ZeroconfText

  const MAX_PUBLISHERS := 4
  const PACKET_SIZE := 2048
  const DEFAULT_TTL := 120
  const ANNOUNCE_INTERVAL := 60000
  const TXT_UPDATE_INTERVAL := 1000
  const RESPONSE_FLAGS: u16 := 0x8400
  const TYPE_ANY := 255

  datatype Publisher = Publisher(
    inUse: bool, generation: nat, name: seq<byte>, serviceType: seq<byte>, domain: seq<byte>,
    serviceFqdn: seq<byte>, instanceFqdn: seq<byte>, host: seq<byte>, hostFqdn: seq<byte>,
    ipv4: Ipv4, port: u16, txt: seq<seq<byte>>, announced: seq<seq<byte>>,
    nextAnnounce: nat, lastAnnounce: nat, due: nat, pending: bool)

  const EMPTY_PUBLISHER :=
    Publisher(false, 0, [], [], [], [], [], [], [], NO_IPV4, 0, [], [], 0, 0, 0, false)

  /** A successful unsolicited announcement by the pump, with the packet that went out. */
  datatype Announcement = Announcement(generation: nat, at: nat, txt: seq<seq<byte>>, packet: seq<byte>)

  /** copy_txt_records: at most 16 strings of at most 255 bytes. */
  predicate TxtAccepted(txt: seq<seq<byte>>) {
    |txt| <= MAX_TXT_RECORDS && forall i :: 0 <= i < |txt| ==> |txt[i]| < MAX_NAME
  }

  /** ntohs on a little-endian machine. */
  function Swapped(port: u16): u16 {
    port % 256 * 256 + port / 256
  }

  // ---------- Packets ----------

  function ServiceOf(p: Publisher): Service {
    Service(p.serviceType, p.domain, p.name, p.host, p.port, p.ipv4, p.txt)
  }

  function OptionsOf(goodbye: bool): ResponseOptions {
    ResponseOptions(RESPONSE_FLAGS, DEFAULT_TTL, !goodbye, goodbye)
  }

  /** The packet a publication is sent as, if it can be built. */
  function Publication(p: Publisher, goodbye: bool): Option<seq<byte>> {
    if Buildable(ServiceOf(p)) && |ServicePacket(ServiceOf(p), OptionsOf(goodbye))| <= PACKET_SIZE
    then Some(ServicePacket(ServiceOf(p), OptionsOf(goodbye)))
    else None
  }

  /** send_publication: `sendOk` is the platform's answer. */
  method SendPublication(p: Publisher, goodbye: bool, sendOk: bool) returns (ok: bool, packet: seq<byte>)
    ensures ok <==> Publication(p, goodbye).Some? && sendOk
    ensures ok ==> packet == Publication(p, goodbye).value
  {
    hide ServicePacket, Buildable;
    var buffer := new byte[PACKET_SIZE];
    var status, size := BuildServiceResponse(buffer, PACKET_SIZE, ServiceOf(p), OptionsOf(goodbye), 0);
    if status != Status.Ok || !sendOk {
      return false, [];
    }
    return true, buffer[..size];
  }

  // ---------- Queries ----------

  /** A question this publisher answers: its type, its instance or its host, asked for the right kind of record. */
  predicate Asks(p: Publisher, q: Question) {
    && q.class_ == CLASS_IN
    && (|| (q.qtype in {TYPE_PTR, TYPE_ANY} && NameMatches(q.name, p.serviceFqdn))
        || (q.qtype in {TYPE_SRV, TYPE_TXT, TYPE_ANY} && NameMatches(q.name, p.instanceFqdn))
        || (q.qtype in {TYPE_A, TYPE_ANY} && NameMatches(q.name, p.hostFqdn)))
  }

  predicate Asked(p: Publisher, questions: seq<Question>) {
    exists i :: 0 <= i < |questions| && Asks(p, questions[i])
  }

  predicate AskedUnicast(p: Publisher, questions: seq<Question>) {
    exists i :: 0 <= i < |questions| && Asks(p, questions[i]) && questions[i].unicastResponse
  }

  datatype Reply = Reply(slot: nat, unicast: bool)

  /** publisher_matches_query */
  method MatchesQuery(p: Publisher, questions: seq<Question>) returns (matched: bool, unicast: bool)
    ensures (matched <==> Asked(p, questions)) && (unicast <==> AskedUnicast(p, questions))
  {
    matched, unicast := false, false;
    for i := 0 to |questions|
      invariant matched <==> exists j :: 0 <= j < i && Asks(p, questions[j])
      invariant unicast <==> exists j :: 0 <= j < i && Asks(p, questions[j]) && questions[j].unicastResponse
    {
      var q := questions[i];
      if q.class_ != CLASS_IN {
        continue;
      }
      var typeMatches :=
        || (q.qtype == TYPE_PTR && NameMatches(q.name, p.serviceFqdn))
        || (q.qtype == TYPE_SRV && NameMatches(q.name, p.instanceFqdn))
        || (q.qtype == TYPE_TXT && NameMatches(q.name, p.instanceFqdn))
        || (q.qtype == TYPE_A && NameMatches(q.name, p.hostFqdn))
        || (q.qtype == 255 && (NameMatches(q.name, p.serviceFqdn) || NameMatches(q.name, p.instanceFqdn)
                               || NameMatches(q.name, p.hostFqdn)));
      assert typeMatches <==> Asks(p, q);
      if !typeMatches {
        continue;
      }
      matched := true;
      if q.unicastResponse {
        unicast := true;
      }
    }
  }

  // ---------- The invariant ----------

  /** An update is pending exactly while the current TXT differs from the announced one, and is never due within a
      second of the last announcement; a repetition is a minute away from it. */
  predicate PublisherOk(p: Publisher, clock: nat) {
    p.inUse ==>
      && (p.pending <==> p.txt != p.announced)
      && (if p.pending then p.due >= p.lastAnnounce + TXT_UPDATE_INTERVAL else p.due == 0)
      && p.nextAnnounce >= p.lastAnnounce + ANNOUNCE_INTERVAL
      && p.lastAnnounce <= clock && TxtAccepted(p.txt) && p.name != [] && |p.name| <= 63
  }

  ghost predicate Unique(ps: seq<Publisher>, generation: nat) {
    && (forall k :: 0 <= k < |ps| && ps[k].inUse ==> ps[k].generation <= generation)
    && (forall k, m :: 0 <= k < m < |ps| && ps[k].inUse && ps[m].inUse ==> ps[k].generation != ps[m].generation)
  }

  /** Announcements of one publication are at least a second apart, and none is later than the last one noted. */
  ghost predicate Spaced(log: seq<Announcement>, ps: seq<Publisher>, generation: nat) {
    && (forall i, j :: 0 <= i < j < |log| && log[i].generation == log[j].generation ==>
          log[i].at + TXT_UPDATE_INTERVAL <= log[j].at)
    && (forall i :: 0 <= i < |log| ==> log[i].generation <= generation)
    && (forall i, k :: 0 <= i < |log| && 0 <= k < |ps| && ps[k].inUse && ps[k].generation == log[i].generation ==>
          log[i].at <= ps[k].lastAnnounce)
  }

  lemma SpacedUpdate(log: seq<Announcement>, ps: seq<Publisher>, generation: nat, k: nat, p: Publisher)
    requires Spaced(log, ps, generation) && Unique(ps, generation) && k < |ps|
    requires p.inUse ==> ps[k].inUse && p.generation == ps[k].generation && p.lastAnnounce >= ps[k].lastAnnounce
    ensures Spaced(log, ps[k := p], generation) && Unique(ps[k := p], generation)
  {
  }

  lemma SpacedAnnouncement(log: seq<Announcement>, ps: seq<Publisher>, generation: nat, k: nat, p: Publisher, at: nat,
                           packet: seq<byte>)
    requires Spaced(log, ps, generation) && Unique(ps, generation) && k < |ps| && ps[k].inUse && p.inUse
    requires p.generation == ps[k].generation && p.lastAnnounce == at >= ps[k].lastAnnounce + TXT_UPDATE_INTERVAL
    ensures Spaced(log + [Announcement(p.generation, at, p.txt, packet)], ps[k := p], generation)
    ensures Unique(ps[k := p], generation)
  {
  }

  lemma SpacedPublication(log: seq<Announcement>, ps: seq<Publisher>, generation: nat, k: nat, p: Publisher)
    requires Spaced(log, ps, generation) && Unique(ps, generation) && k < |ps| && !ps[k].inUse
    requires p.inUse ==> p.generation == generation + 1
    ensures Spaced(log, ps[k := p], generation + 1) && Unique(ps[k := p], generation + 1)
  {
  }

  // ---------- The publishers ----------

  function Announced(p: Publisher, now: nat): Publisher {
    p.(announced := p.txt, pending := false, due := 0, lastAnnounce := now, nextAnnounce := now + ANNOUNCE_INTERVAL)
  }

  /** What is to be published: every name is a component or joined from components, and the label is short enough. */
  function Described(generation: nat, port: u16, name: seq<byte>, serviceType: seq<byte>, domain: seq<byte>,
                     txt: seq<seq<byte>>, ipv4: Option<Ipv4>, host: seq<byte>): Option<Publisher>
  {
    var n, t, d := Component(name, [], 65), Component(serviceType, [], MAX_NAME), Component(domain, LOCAL, MAX_NAME);
    if port == 0 || name == [] || |name| > 64 || n.None? || t.None? || d.None? || !TxtAccepted(txt) || |n.value| > 63
       || ipv4.None?
    then None
    else match Joined(t.value, d.value)
         case None => None
         case Some(service) =>
           var instance, hostName := Joined(n.value, service), Joined(host, d.value);
           if instance.None? || hostName.None? then None
           else Some(Publisher(true, generation, n.value, t.value, d.value, service, instance.value, host,
                               hostName.value, ipv4.value, Swapped(port), txt, [], 0, 0, 0, false))
  }

  predicate UpdateDue(p: Publisher, now: nat) {
    p.pending && now >= p.due
  }

  /** A repetition, unlike an update, takes the machine's present address. */
  function WithAddress(p: Publisher, now: nat, ipv4: Option<Ipv4>): Publisher {
    if !UpdateDue(p, now) && now >= p.nextAnnounce && ipv4.Some? then p.(ipv4 := ipv4.value) else p
  }

  /** A publisher after its turn, and whether its announcement went out: sent if there is something to send and it can
      be; tried again after a second for an update, after a minute otherwise. */
  function Outcome(p: Publisher, now: nat, ipv4: Option<Ipv4>, sendOk: bool): (Publisher, bool) {
    var current := WithAddress(p, now, ipv4);
    var attempt := UpdateDue(p, now) || now >= p.nextAnnounce;
    var sent := attempt && sendOk && Publication(current, false).Some?;
    (if sent then Announced(current, now)
     else if UpdateDue(p, now) then p.(due := now + TXT_UPDATE_INTERVAL)
     else if attempt then current.(nextAnnounce := now + ANNOUNCE_INTERVAL)
     else p, sent)
  }

  /** The packet of a turn that sends. */
  function TurnPacket(p: Publisher, now: nat, ipv4: Option<Ipv4>): seq<byte> {
    match Publication(WithAddress(p, now, ipv4), false)
    case None => []
    case Some(packet) => packet
  }

  /** The announcements of a pump, one for each publisher whose turn sent one, in the order of the slots. */
  function Sent(ps: seq<Publisher>, n: nat, now: nat, ipv4: Option<Ipv4>, sendOk: seq<bool>): seq<Announcement>
    requires n <= |ps| && n <= |sendOk|
  {
    if n == 0 then []
    else
      var p := ps[n - 1];
      Sent(ps, n - 1, now, ipv4, sendOk)
      + (if p.inUse && Outcome(p, now, ipv4, sendOk[n - 1]).1
         then [Announcement(p.generation, now, p.txt, TurnPacket(p, now, ipv4))] else [])
  }

  /** After its turn nothing is due, and a due update that could be sent has been. */
  ghost predicate PumpedOk(p: Publisher, q: Publisher, now: nat, sendOk: bool) {
    && q.inUse == p.inUse && q.txt == p.txt && (q.pending ==> now < q.due) && (!q.pending ==> now < q.nextAnnounce)
    && (UpdateDue(p, now) && sendOk && Publication(p, false).Some? ==> !q.pending && q.announced == p.txt)
  }

  ghost predicate AllOk(ps: seq<Publisher>, generation: nat, log: seq<Announcement>, clock: nat) {
    && |ps| == MAX_PUBLISHERS && (forall k :: 0 <= k < |ps| ==> PublisherOk(ps[k], clock))
    && Unique(ps, generation) && Spaced(log, ps, generation)
  }

  lemma SlotUpdated(ps: seq<Publisher>, generation: nat, log: seq<Announcement>, clock: nat, k: nat, p: Publisher)
    requires AllOk(ps, generation, log, clock) && k < |ps| && PublisherOk(p, clock)
    requires p.inUse ==> ps[k].inUse && p.generation == ps[k].generation && p.lastAnnounce >= ps[k].lastAnnounce
    ensures AllOk(ps[k := p], generation, log, clock)
  {
    hide PublisherOk;
    SpacedUpdate(log, ps, generation, k, p);
  }

  lemma SlotPublished(ps: seq<Publisher>, generation: nat, log: seq<Announcement>, clock: nat, now: nat, k: nat,
                      p: Publisher)
    requires AllOk(ps, generation, log, clock) && clock <= now && k < |ps| && PublisherOk(p, now) && !ps[k].inUse
    requires p.inUse ==> p.generation == generation + 1
    ensures AllOk(ps[k := p], generation + 1, log, now)
  {
    ClockAdvances(ps, generation, log, clock, now);
    hide PublisherOk;
    SpacedPublication(log, ps, generation, k, p);
  }

  lemma ClockAdvances(ps: seq<Publisher>, generation: nat, log: seq<Announcement>, clock: nat, now: nat)
    requires AllOk(ps, generation, log, clock) && clock <= now
    ensures AllOk(ps, generation, log, now)
  {
  }

  /** A turn of the pump keeps everything, the spacing of announcements included. */
  lemma TurnKeeps(ps: seq<Publisher>, generation: nat, log: seq<Announcement>, now: nat, k: nat, q: Publisher,
                  ipv4: Option<Ipv4>, sendOk: bool, sent: bool, packet: seq<byte>)
    requires AllOk(ps, generation, log, now) && k < |ps| && ps[k].inUse
    requires (q, sent) == Outcome(ps[k], now, ipv4, sendOk)
    ensures AllOk(ps[k := q], generation,
                  if sent then log + [Announcement(ps[k].generation, now, ps[k].txt, packet)] else log, now)
  {
    hide Publication;
    var p := ps[k];
    assert PublisherOk(p, now) && PublisherOk(q, now) && q.generation == p.generation && q.txt == p.txt && q.inUse;
    if sent {
      assert q.lastAnnounce == now >= p.lastAnnounce + TXT_UPDATE_INTERVAL;
      hide PublisherOk, Outcome;
      SpacedAnnouncement(log, ps, generation, k, q, now, packet);
    } else {
      SlotUpdated(ps, generation, log, now, k, q);
    }
  }

  /** The two cases of s3e_zero_conf_pump for one publisher. */
  method Turn(p: Publisher, now: nat, sendOk: bool, ipv4: Option<Ipv4>)
    returns (q: Publisher, sent: bool, packet: seq<byte>)
    requires p.inUse
    ensures (q, sent) == Outcome(p, now, ipv4, sendOk) && PumpedOk(p, q, now, sendOk)
    ensures sent ==> packet == TurnPacket(p, now, ipv4)
  {
    hide Publication;
    q, sent, packet := p, false, [];
    if p.pending && now >= p.due {
      sent, packet := SendPublication(p, false, sendOk);
      if sent {
        q := Announced(p, now);
      } else {
        q := p.(due := now + TXT_UPDATE_INTERVAL);
      }
      return;
    }
    if now >= p.nextAnnounce {
      if ipv4.Some? {
        q := p.(ipv4 := ipv4.value);
      }
      sent, packet := SendPublication(q, false, sendOk);
      if sent {
        q := Announced(q, now);
      } else {
        q := q.(nextAnnounce := now + ANNOUNCE_INTERVAL);
      }
    }
  }

  lemma HasSlots(ps: seq<Publisher>, generation: nat, log: seq<Announcement>, clock: nat)
    requires AllOk(ps, generation, log, clock)
    ensures |ps| == MAX_PUBLISHERS
  {
  }

  lemma SlotPublishedNot(ps: seq<Publisher>, generation: nat, log: seq<Announcement>, clock: nat, k: nat)
    requires AllOk(ps, generation, log, clock) && k < |ps| && !ps[k].inUse
    ensures AllOk(ps[k := EMPTY_PUBLISHER], generation, log, clock)
    ensures AllOk(ps[k := EMPTY_PUBLISHER], generation + 1, log, clock)
  {
    SlotUpdated(ps, generation, log, clock, k, EMPTY_PUBLISHER);
    SlotPublished(ps, generation, log, clock, clock, k, EMPTY_PUBLISHER);
  }

  lemma DescribedOk(generation: nat, port: u16, name: seq<byte>, serviceType: seq<byte>, domain: seq<byte>,
                    txt: seq<seq<byte>>, ipv4: Option<Ipv4>, host: seq<byte>, now: nat)
    ensures match Described(generation, port, name, serviceType, domain, txt, ipv4, host)
            case Some(p) =>
              var q := Announced(p, now);
              PublisherOk(q, now) && q.inUse && q.generation == generation
            case None => true
  {
  }

  /** The checks and names of s3eZeroConfPublish; `counted` says whether a generation was used up. */
  method Describe(generation: nat, port: u16, name: seq<byte>, serviceType: seq<byte>, domain: seq<byte>,
                  txt: seq<seq<byte>>, socketOk: bool, ipv4: Option<Ipv4>, host: seq<byte>)
    returns (p: Option<Publisher>, counted: bool)
    requires port != 0 && name != [] && |name| <= 64
    ensures p == if socketOk then Described(generation, port, name, serviceType, domain, txt, ipv4, host) else None
    ensures p.Some? ==> counted
  {
    hide Component, TxtAccepted;
    p, counted := None, false;
    var named := CopyComponent(name, [], 65);
    var kind := CopyComponent(serviceType, [], MAX_NAME);
    var zone := CopyComponent(domain, LOCAL, MAX_NAME);
    if named.None? || kind.None? || zone.None? || !TxtAccepted(txt) {
      return;
    }
    counted := true;
    var service := Joined(kind.value, zone.value);
    if |named.value| > 63 || !socketOk || service.None? || ipv4.None? {
      return;
    }
    var instance, hostName := Joined(named.value, service.value), Joined(host, zone.value);
    if instance.None? || hostName.None? {
      return;
    }
    p := Some(Publisher(true, generation, named.value, kind.value, zone.value, service.value, instance.value, host,
                        hostName.value, ipv4.value, Swapped(port), txt, [], 0, 0, 0, false));
  }

  // ---------- Calls and runs ----------

  /** The publishers and the announcements made so far. */
  datatype Published = Published(publishers: seq<Publisher>, generation: nat, log: seq<Announcement>)

  datatype PublisherCall =
    | PublishCall(port: u16, name: seq<byte>, serviceType: seq<byte>, domain: seq<byte>, txt: seq<seq<byte>>,
                  socketOk: bool, ipv4: Option<Ipv4>, host: seq<byte>, sendOk: bool, now: nat)
    | UpdateCall(handle: nat, txt: seq<seq<byte>>, now: nat)
    | UnpublishCall(handle: nat, sendOk: bool)
    | PumpCall(now: nat, sending: seq<bool>, ipv4: Option<Ipv4>)

  /** The first free slot. */
  function FreePublisher(ps: seq<Publisher>): (k: nat)
    ensures k <= |ps| && (k < |ps| ==> !ps[k].inUse)
    ensures forall m :: 0 <= m < k ==> ps[m].inUse
  {
    if ps == [] || !ps[0].inUse then 0
    else
      var k := FreePublisher(ps[1..]);
      assert forall m :: 0 < m < 1 + k ==> ps[m] == ps[1..][m - 1];
      1 + k
  }

  /** Publishers in use are untouched, and the free slots stay free. */
  predicate SamePublished(ps: seq<Publisher>, qs: seq<Publisher>) {
    |ps| == |qs| && forall k :: 0 <= k < |ps| ==> qs[k] == ps[k] || !(ps[k].inUse || qs[k].inUse)
  }

  /** The publication a call would make. */
  function CallDescribed(generation: nat, c: PublisherCall): Option<Publisher>
    requires c.PublishCall?
  {
    if c.socketOk then Described(generation, c.port, c.name, c.serviceType, c.domain, c.txt, c.ipv4, c.host) else None
  }

  /** A publication counts as announced at once; it fails exactly if it cannot be described or no slot is free. */
  ghost predicate PublishDone(x: Published, c: PublisherCall, y: Published)
    requires c.PublishCall?
  {
    var k, described := FreePublisher(x.publishers), CallDescribed(x.generation + 1, c);
    && y.log == x.log
    && if k < |x.publishers| && described.Some? then
         y.publishers == x.publishers[k := Announced(described.value, c.now)] && y.generation == x.generation + 1
       else SamePublished(x.publishers, y.publishers) && x.generation <= y.generation <= x.generation + 1
  }

  /** When an update may go out: a second after the last announcement, or now. */
  function UpdateTime(p: Publisher, now: nat): nat {
    if now > p.lastAnnounce + TXT_UPDATE_INTERVAL then now else p.lastAnnounce + TXT_UPDATE_INTERVAL
  }

  /** An update back to the announced data cancels the pending one; the first update fixes the due time, later ones
      keep it. */
  function Updated(p: Publisher, txt: seq<seq<byte>>, now: nat): Publisher {
    if txt == p.txt then p
    else if txt == p.announced then p.(txt := txt, pending := false, due := 0)
    else p.(txt := txt, pending := true, due := if p.pending then p.due else UpdateTime(p, now))
  }

  predicate UpdateAccepted(ps: seq<Publisher>, handle: nat, txt: seq<seq<byte>>) {
    handle < |ps| && ps[handle].inUse && TxtAccepted(txt)
  }

  ghost predicate CallDone(x: Published, c: PublisherCall, y: Published) {
    match c
    case PublishCall(_, _, _, _, _, _, _, _, _, _) => PublishDone(x, c, y)
    case UpdateCall(handle, txt, now) =>
      y == if UpdateAccepted(x.publishers, handle, txt)
           then x.(publishers := x.publishers[handle := Updated(x.publishers[handle], txt, now)]) else x
    case UnpublishCall(handle, _) =>
      y == if handle < |x.publishers| && x.publishers[handle].inUse
           then x.(publishers := x.publishers[handle := EMPTY_PUBLISHER]) else x
    case PumpCall(now, sending, ipv4) => PumpDone(x, now, sending, ipv4, y)
  }

  /** Every publisher has its turn, and exactly the announcements that went out are added to the log. */
  ghost predicate PumpDone(x: Published, now: nat, sendOk: seq<bool>, ipv4: Option<Ipv4>, y: Published) {
    && |x.publishers| == |y.publishers| == |sendOk| && y.generation == x.generation
    && (forall k :: 0 <= k < |x.publishers| ==>
          var p := x.publishers[k];
          y.publishers[k] == if p.inUse then Outcome(p, now, ipv4, sendOk[k]).0 else p)
    && y.log == x.log + Sent(x.publishers, |x.publishers|, now, ipv4, sendOk)
  }

  /** The clock does not go back. */
  predicate CallsInOrder(calls: seq<PublisherCall>, clock: nat) {
    calls == [] ||
    match calls[0]
    case PublishCall(_, _, _, _, _, _, _, _, _, now) => clock <= now && CallsInOrder(calls[1..], now)
    case UpdateCall(_, _, now) => clock <= now && CallsInOrder(calls[1..], now)
    case UnpublishCall(_, _) => CallsInOrder(calls[1..], clock)
    case PumpCall(now, sending, _) => clock <= now && |sending| == MAX_PUBLISHERS && CallsInOrder(calls[1..], now)
  }

  lemma {:induction false} InOrderEarlier(calls: seq<PublisherCall>, clock: nat, earlier: nat)
    requires CallsInOrder(calls, clock) && earlier <= clock
    ensures CallsInOrder(calls, earlier)
    decreases |calls|
  {
    if calls == [] {
    } else if calls[0].UnpublishCall? {
      InOrderEarlier(calls[1..], clock, earlier);
    }
  }

  class Publishers {
    var publishers: seq<Publisher>
    var generation: nat
    ghost var log: seq<Announcement>
    ghost var clock: nat

    ghost predicate Valid()
      reads this
    {
      AllOk(publishers, generation, log, clock)
    }

    ghost function Now(): Published
      reads this
    {
      Published(publishers, generation, log)
    }

    constructor ()
      ensures Valid() && log == [] && clock == 0 && publishers == seq(MAX_PUBLISHERS, _ => EMPTY_PUBLISHER)
    {
      publishers := seq(MAX_PUBLISHERS, _ => EMPTY_PUBLISHER);
      generation, log, clock := 0, [], 0;
    }

    /** s3eZeroConfPublish. `host` is the label made for this machine and `ipv4` its address, if it has one. The TXT
        data counts as announced whether or not the packet went out. */
    method Publish(port: u16, name: seq<byte>, serviceType: seq<byte>, domain: seq<byte>, txt: seq<seq<byte>>,
                   socketOk: bool, ipv4: Option<Ipv4>, host: seq<byte>, sendOk: bool, now: nat)
      returns (handle: Option<nat>, packet: seq<byte>)
      requires Valid() && clock <= now
      modifies this
      ensures Valid() && old(clock) <= clock <= now
      ensures var call := PublishCall(port, name, serviceType, domain, txt, socketOk, ipv4, host, sendOk, now);
              var p, k := CallDescribed(old(generation) + 1, call), FreePublisher(old(publishers));
              && PublishDone(old(Now()), call, Now())
              && handle == (if p.Some? && k < MAX_PUBLISHERS then Some(k) else None)
              && packet == (if handle.Some? && sendOk && Publication(p.value, false).Some?
                            then Publication(p.value, false).value else [])
    {
      hide AllOk, Component, Joined, Publication, TxtAccepted, Announced;
      HasSlots(publishers, generation, log, clock);
      packet := [];
      if port == 0 || name == [] || |name| > 64 {
        return None, packet;
      }
      var k := 0;
      while k < MAX_PUBLISHERS && publishers[k].inUse
        invariant k <= MAX_PUBLISHERS && forall m :: 0 <= m < k ==> publishers[m].inUse
      {
        k := k + 1;
      }
      if k == MAX_PUBLISHERS {
        return None, packet;
      }
      var described, counted := Describe(generation + 1, port, name, serviceType, domain, txt, socketOk, ipv4, host);
      if described.None? {
        SlotPublishedNot(publishers, generation, log, clock, k);
        publishers := publishers[k := EMPTY_PUBLISHER];
        generation := if counted then generation + 1 else generation;
        return None, packet;
      }
      var p := described.value;
      DescribedOk(generation + 1, port, name, serviceType, domain, txt, ipv4, host, now);
      var sent;
      sent, packet := SendPublication(p, false, sendOk);
      if !sent {
        packet := [];
      }
      SlotPublished(publishers, generation, log, clock, now, k, Announced(p, now));
      publishers, generation, clock := publishers[k := Announced(p, now)], generation + 1, now;
      return Some(k), packet;
    }

    /** s3eZeroConfUpdateTxtRecord: an update back to the announced data cancels the pending one; the first update fixes
        the due time, later ones keep it. */
    method UpdateTxt(handle: nat, txt: seq<seq<byte>>, now: nat) returns (ok: bool)
      requires Valid() && clock <= now
      modifies this
      ensures Valid() && old(clock) <= clock <= now
      ensures ok <==> UpdateAccepted(old(publishers), handle, txt)
      ensures CallDone(old(Now()), UpdateCall(handle, txt, now), Now())
      ensures ok ==>
        var p, q := old(publishers[handle]), publishers[handle];
        && q.txt == txt && (q.pending <==> txt != p.announced)
        && (q.pending ==> q.due >= p.lastAnnounce + TXT_UPDATE_INTERVAL)
    {
      if handle >= MAX_PUBLISHERS || !publishers[handle].inUse || !TxtAccepted(txt) {
        return false;
      }
      var p := publishers[handle];
      if p.txt == txt {
        assert publishers[handle := p] == publishers;
        return true;
      }
      p := p.(txt := txt);
      if txt == p.announced {
        p := p.(pending := false, due := 0);
      } else if !p.pending {
        var earliest := p.lastAnnounce + TXT_UPDATE_INTERVAL;
        p := p.(due := if now > earliest then now else earliest, pending := true);
      }
      SlotUpdated(publishers, generation, log, clock, handle, p);
      publishers := publishers[handle := p];
      return true;
    }

    /** s3eZeroConfUnpublish: a goodbye, whether or not it can be sent. */
    method Unpublish(handle: nat, sendOk: bool) returns (ok: bool, packet: seq<byte>)
      requires Valid()
      modifies this`publishers
      ensures Valid()
      ensures CallDone(old(Now()), UnpublishCall(handle, sendOk), Now())
      ensures ok <==> handle < MAX_PUBLISHERS && old(publishers[handle].inUse)
      ensures !ok ==> packet == []
      ensures ok ==>
        var goodbye := Publication(old(publishers[handle]), true);
        packet == if sendOk && goodbye.Some? then goodbye.value else []
    {
      packet := [];
      if handle >= MAX_PUBLISHERS || !publishers[handle].inUse {
        return false, packet;
      }
      var sent;
      sent, packet := SendPublication(publishers[handle], true, sendOk);
      if !sent {
        packet := [];
      }
      SlotUpdated(publishers, generation, log, clock, handle, EMPTY_PUBLISHER);
      publishers := publishers[handle := EMPTY_PUBLISHER];
      return true, packet;
    }

    /** The query half of s3e_zero_conf_process_packet: which publications are sent in answer, and which of them to the
        asker alone (only if its address is known). */
    method AnswerQuery(questions: seq<Question>, sourceKnown: bool) returns (answers: seq<Reply>)
      requires Valid()
      ensures forall k :: (exists i :: 0 <= i < |answers| && answers[i].slot == k) <==>
        0 <= k < MAX_PUBLISHERS && publishers[k].inUse && Asked(publishers[k], questions)
      ensures forall i :: 0 <= i < |answers| ==>
        && answers[i].slot < MAX_PUBLISHERS
        && answers[i].unicast == (sourceKnown && AskedUnicast(publishers[answers[i].slot], questions))
      ensures forall i, j :: 0 <= i < j < |answers| ==> answers[i].slot < answers[j].slot
    {
      hide Asked, AskedUnicast, AllOk;
      HasSlots(publishers, generation, log, clock);
      answers := [];
      for k := 0 to MAX_PUBLISHERS
        invariant forall i :: 0 <= i < |answers| ==> answers[i].slot < k && publishers[answers[i].slot].inUse
        invariant forall i :: 0 <= i < |answers| ==> Asked(publishers[answers[i].slot], questions)
        invariant forall i :: 0 <= i < |answers| ==>
          answers[i].unicast == (sourceKnown && AskedUnicast(publishers[answers[i].slot], questions))
        invariant forall m :: 0 <= m < k && publishers[m].inUse && Asked(publishers[m], questions) ==>
          exists i :: 0 <= i < |answers| && answers[i].slot == m
        invariant forall i, j :: 0 <= i < j < |answers| ==> answers[i].slot < answers[j].slot
      {
        if !publishers[k].inUse {
          continue;
        }
        var matched, unicast := MatchesQuery(publishers[k], questions);
        if matched {
          ghost var before := answers;
          answers := answers + [Reply(k, unicast && sourceKnown)];
          assert answers[|before|].slot == k;
          forall m | 0 <= m < k && publishers[m].inUse && Asked(publishers[m], questions)
            ensures exists i :: 0 <= i < |answers| && answers[i].slot == m
          {
            var i :| 0 <= i < |before| && before[i].slot == m;
            assert answers[i].slot == m;
          }
        }
      }
    }

    // ---------- The pump ----------

    /** One publisher's turn in s3e_zero_conf_pump. A due update goes out at once; a repetition once a minute. */
    method PumpPublisher(k: nat, now: nat, sendOk: bool, ipv4: Option<Ipv4>) returns (sent: bool, packet: seq<byte>)
      requires Valid() && clock == now && k < MAX_PUBLISHERS && publishers[k].inUse
      modifies this`publishers, this`log
      ensures Valid() && publishers == old(publishers)[k := publishers[k]]
      ensures (publishers[k], sent) == Outcome(old(publishers[k]), now, ipv4, sendOk)
      ensures sent ==> packet == TurnPacket(old(publishers[k]), now, ipv4)
      ensures var added := [Announcement(old(publishers[k].generation), now, old(publishers[k].txt),
                                         TurnPacket(old(publishers[k]), now, ipv4))];
              log == if sent then old(log) + added else old(log)
      ensures PumpedOk(old(publishers[k]), publishers[k], now, sendOk)
    {
      var p, q := publishers[k], EMPTY_PUBLISHER;
      hide AllOk, Outcome, PumpedOk, Publication;
      q, sent, packet := Turn(p, now, sendOk, ipv4);
      TurnKeeps(publishers, generation, log, now, k, q, ipv4, sendOk, sent, packet);
      log := if sent then log + [Announcement(p.generation, now, p.txt, packet)] else log;
      publishers := publishers[k := q];
    }

    /** The publishers' half of s3e_zero_conf_pump: every turn has its outcome and exactly the announcements that went
        out are recorded; afterwards nothing is due, and due updates that could be sent have been. */
    method Pump(now: nat, sendOk: seq<bool>, ipv4: Option<Ipv4>)
      requires Valid() && clock <= now && |sendOk| == MAX_PUBLISHERS
      modifies this
      ensures Valid() && old(clock) <= clock <= now
      ensures PumpDone(old(Now()), now, sendOk, ipv4, Now())
      ensures forall k :: 0 <= k < MAX_PUBLISHERS && publishers[k].inUse ==>
        PumpedOk(old(publishers[k]), publishers[k], now, sendOk[k])
    {
      hide Publication, PublisherOk, Unique, Spaced, Outcome, TurnPacket;
      ClockAdvances(publishers, generation, log, clock, now);
      clock := now;
      ghost var ps := publishers;
      for k := 0 to MAX_PUBLISHERS
        invariant Valid() && generation == old(generation) && clock == now
        invariant forall m :: k <= m < MAX_PUBLISHERS ==> publishers[m] == ps[m]
        invariant forall m :: 0 <= m < k ==>
          publishers[m] == if ps[m].inUse then Outcome(ps[m], now, ipv4, sendOk[m]).0 else ps[m]
        invariant forall m :: 0 <= m < k && publishers[m].inUse ==> PumpedOk(ps[m], publishers[m], now, sendOk[m])
        invariant log == old(log) + Sent(ps, k, now, ipv4, sendOk)
      {
        if !publishers[k].inUse {
          continue;
        }
        var _, _ := PumpPublisher(k, now, sendOk[k], ipv4);
      }
    }

    /** Any run of calls, each doing what it says: announcements are only added, and any two of one publication are at
        least a second apart. */
    method Run(calls: seq<PublisherCall>) returns (ghost moments: seq<Published>)
      requires Valid() && CallsInOrder(calls, clock)
      modifies this
      ensures Valid() && |moments| == |calls| + 1 && moments[0] == old(Now()) && moments[|calls|] == Now()
      ensures forall j :: 0 <= j < |calls| ==> CallDone(moments[j], calls[j], moments[j + 1])
      ensures old(log) <= log
      ensures forall i, j :: 0 <= i < j < |log| && log[i].generation == log[j].generation ==>
        log[i].at + TXT_UPDATE_INTERVAL <= log[j].at
    {
      hide AllOk, CallDone, PublishDone, PumpDone;
      var rest := calls;
      moments := [Now()];
      while rest != []
        invariant Valid() && CallsInOrder(rest, clock)
        invariant |rest| <= |calls| && rest == calls[|calls| - |rest|..]
        invariant |moments| == |calls| - |rest| + 1 && moments[0] == old(Now()) && moments[|moments| - 1] == Now()
        invariant forall j :: 0 <= j < |moments| - 1 ==> CallDone(moments[j], calls[j], moments[j + 1])
        invariant old(log) <= log
        decreases |rest|
      {
        var call := rest[0];
        rest := rest[1..];
        ghost var at := LaterTime(call, clock);
        Perform(call);
        InOrderEarlier(rest, at, clock);
        moments := moments + [Now()];
      }
      AnnouncementsSpaced(publishers, generation, log, clock);
    }

    method Perform(call: PublisherCall)
      requires Valid() && CallsInOrder([call], clock)
      modifies this
      ensures Valid() && CallDone(old(Now()), call, Now()) && old(log) <= log
      ensures clock <= LaterTime(call, old(clock))
    {
      hide AllOk, Sent, Outcome;
      match call {
        case PublishCall(port, name, serviceType, domain, txt, socketOk, ipv4, host, sendOk, now) =>
          var _, _ := Publish(port, name, serviceType, domain, txt, socketOk, ipv4, host, sendOk, now);
        case UpdateCall(handle, txt, now) =>
          var _ := UpdateTxt(handle, txt, now);
        case UnpublishCall(handle, sendOk) =>
          var _, _ := Unpublish(handle, sendOk);
        case PumpCall(now, sending, ipv4) =>
          Pump(now, sending, ipv4);
      }
    }
  }

  /** When a call takes place, if that matters to it. */
  function LaterTime(call: PublisherCall, clock: nat): nat {
    if call.UnpublishCall? then clock else call.now
  }

  lemma AnnouncementsSpaced(ps: seq<Publisher>, generation: nat, log: seq<Announcement>, clock: nat)
    requires AllOk(ps, generation, log, clock)
    ensures forall i, j :: 0 <= i < j < |log| && log[i].generation == log[j].generation ==>
              log[i].at + TXT_UPDATE_INTERVAL <= log[j].at
  {
    hide PublisherOk, Unique;
  }
}
