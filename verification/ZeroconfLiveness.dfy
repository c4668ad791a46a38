/** A service that goes on being announced is never forgotten by those who hear it. */
module ZeroconfLiveness {
  import opened Options
  import opened WireNames
  import opened WireParse
  import opened WireBuild
  import opened WireRoundTrip
  import opened ZeroconfCache
  import opened ZeroconfSteps
  import opened ZeroconfAnnouncement
  import opened ZeroconfPublishers
  import opened ZeroconfPublication
  import opened ZeroconfTimes

  /** The announcement of a publisher, as a search for its service with room for it receives it at `now`. */
  ghost predicate Receives(c: Cache, p: Publisher, now: u64) {
    var s := ServiceOf(p);
    && Buildable(s) && Terminated(s) && Parseable(s) && Acceptable(s)
    && CacheOk(c.search, now) && NameMatches(c.search.serviceFqdn, ServiceName(s))
    && EntryFor(c.search.discovered, InstanceText(s)) < |c.search.discovered|
    && AllocateAddress(c.search.addresses, HostText(s)).1 < |c.search.addresses|
  }

  /** While sending works and pumps come at least every minute: after each pump, whoever received the last announcement
      holds the service complete until the next pump, whenever it looks for what has expired. */
  lemma NeverForgotten(moments: seq<Published>, times: seq<nat>, sendOks: seq<seq<bool>>, ipv4s: seq<Option<Ipv4>>,
                       k: nat, interval: nat, j: nat, c: Cache, later: u64)
    requires Pumps(moments, times, sendOks, ipv4s, k) && Regular(times, interval) && interval <= 60000
    requires j < |times| && later <= times[j] + interval && later < 0xffff_ffff_ffff_ffff
    requires k < |moments[0].publishers| && OnTime(moments[0].publishers[k])
    requires times[0] <= moments[0].publishers[k].lastAnnounce + 60000 + interval
    requires k < |moments[j + 1].publishers| && moments[j + 1].publishers[k].lastAnnounce <= 0xffff_ffff_ffff_ffff
    requires var p := moments[j + 1].publishers[k]; Receives(c, p, p.lastAnnounce)
    ensures var p := moments[j + 1].publishers[k];
            var s := ServiceOf(p);
            && ParseAll(ServicePacket(s, OptionsOf(false))).Success?
            && var records := Bounded(ParseAll(ServicePacket(s, OptionsOf(false))).value.0).records;
               var t, i := PacketApplied(c, records, p.lastAnnounce), EntryFor(c.search.discovered, InstanceText(s));
               i < |t.discovered| && ExpiredEntry(t.discovered[i], later).Complete()
  {
    hide PumpDone, Publication, Terminated, Parseable, Buildable, Acceptable, CacheOk, NameMatches, ServicePacket,
         PacketApplied, ParseAll, EntryFor, AllocateAddress, ServiceName, InstanceText, HostText;
    RepeatedInTime(moments, times, sendOks, ipv4s, k, interval, j);
    var p := moments[j + 1].publishers[k];
    AnnouncementLasts(c, ServiceOf(p), OptionsOf(false), p.lastAnnounce, later);
  }
}
