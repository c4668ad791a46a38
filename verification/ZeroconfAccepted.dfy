/** Which publications, updates and searches are accepted, and what they start from. */
module ZeroconfAccepted {
  import opened Options
  import opened WireNames
  import opened WireWriter
  import opened WireParse
  import opened WireBuild
  import opened ZeroconfCache
  import opened ZeroconfText
  import opened ZeroconfPublishers
  import Scene = ZeroconfScene
  import Runs = ZeroconfRuns
  import Steps = ZeroconfSteps

  const LOCAL_NAME: seq<byte> := [108, 111, 99, 97, 108]  // "local"

  // ---------- Names ----------

  /** A component of at most this many bytes that a value stands for. */
  ghost predicate Part(value: seq<byte>, text: seq<byte>, most: nat) {
    Core(value, text) && |text| <= most
  }

  /** A component is the core of its value exactly if that fits. */
  lemma ComponentIs(input: seq<byte>, fallback: seq<byte>, most: nat, text: seq<byte>)
    ensures Component(input, fallback, most + 1) == Some(text)
       <==> Part(if input == [] then fallback else input, text, most)
  {
    hide Core, Component;
    var value := if input == [] then fallback else input;
    ComponentExact(input, fallback, most + 1);
    if Component(input, fallback, most + 1).Some? && Core(value, text) {
      CoreIsOne(value, Component(input, fallback, most + 1).value, text);
    }
  }

  lemma CoreIsOne(value: seq<byte>, left: seq<byte>, right: seq<byte>)
    requires Core(value, left) && Core(value, right)
    ensures left == right
  {
    var n: nat :| n + |left| <= |value| && value[n..n + |left|] == left
                  && AllDots(value, 0, n) && AllDots(value, n + |left|, |value|);
    assert value[n] == left[0] && value[n + |left| - 1] == left[|left| - 1];
    CoreUnique(value, n, |left|, right);
  }

  lemma PartNotEmpty(value: seq<byte>, text: seq<byte>)
    ensures forall most :: Part(value, text, most) ==> text != []
  {
  }

  // ---------- Services ----------

  /** A name of one or more labels of 1 to 63 bytes, separated by dots, with or without a dot at the end. */
  ghost predicate Spelled(name: seq<byte>, labels: seq<Label>) {
    && labels != [] && (name == Join(labels) || name == Join(labels) + [46]) && |Join(labels)| <= 253
    && forall i :: 0 <= i < |labels| ==> 1 <= |labels[i]| <= 63 && 46 !in labels[i]
  }

  /** The names a packet can hold: the root, and those that are spelled so. */
  lemma NameValidExact(name: seq<byte>)
    ensures NameValid(name) <==> name == [46] || exists labels :: Spelled(name, labels)
  {
    hide Join, Split, WireLength;
    if NameValid(name) && name != [46] {
      var labels := Labels(name);
      LabelsText(name);
      Pieces(WithoutTrailingDot(name));
      Length(labels);
      assert Spelled(name, labels);
    }
    if labels :| Spelled(name, labels) {
      LabelsSpelled(name, labels);
      Length(labels);
    }
    RootValid();
  }

  lemma Pieces(s: seq<byte>)
    ensures |Split(s)| >= 1 && forall i :: 0 <= i < |Split(s)| ==> 46 !in Split(s)[i]
  {
    JoinSplit(s);
    forall i | 0 <= i < |Split(s)|
      ensures 46 !in Split(s)[i]
    {
      assert Dotless(Split(s)[i]);
    }
  }

  lemma Length(labels: seq<Label>)
    requires labels != []
    ensures WireLength(labels) == |Join(labels)| + 2
  {
    JoinLength(labels);
  }

  lemma RootValid()
    ensures NameValid([46])
  {
  }

  lemma {:induction false} JoinEnds(labels: seq<Label>)
    requires labels != [] && forall i :: 0 <= i < |labels| ==> labels[i] != [] && 46 !in labels[i]
    ensures Join(labels) != [] && Join(labels)[|Join(labels)| - 1] != 46
    decreases |labels|
  {
    if |labels| == 1 {
      assert labels[0][|labels[0]| - 1] in labels[0];
    } else {
      JoinEnds(labels[1..]);
    }
  }

  lemma LabelsSpelled(name: seq<byte>, labels: seq<Label>)
    requires Spelled(name, labels)
    ensures name != [] && name != [46] && Labels(name) == labels
  {
    hide Join, Split;
    JoinEnds(labels);
    SplitJoin(labels);
    assert WithoutTrailingDot(name) == Join(labels);
  }

  /** What is left of a value without the dots at its end. */
  predicate Trimmed(value: seq<byte>, text: seq<byte>) {
    text != [] && text[|text| - 1] != 46 && text <= value && forall i :: |text| <= i < |value| ==> value[i] == 46
  }

  /** Two names joined: no dots where they meet, nor at the end. */
  ghost predicate JoinedFrom(prefix: seq<byte>, suffix: seq<byte>, text: seq<byte>) {
    exists left, right :: Trimmed(prefix, left) && Core(suffix, right) && text == left + [46] + right
  }

  /** The builder joins a type and a domain exactly if there is something left of both, and the name is valid. */
  lemma JoinedNameExact(prefix: seq<byte>, suffix: seq<byte>, text: seq<byte>)
    ensures JoinedName(prefix, suffix) == Some(text) <==> JoinedFrom(prefix, suffix, text) && NameValid(text)
  {
    hide NameValid, Core;
    var left, right := StripTrailingDots(prefix), StripTrailingDots(StripLeadingDots(suffix));
    TrimmedExact(prefix);
    CoreExact(suffix);
    if NameValid(text) { ValidIsShort(text); }
    if left != [] && right != [] {
      assert Trimmed(prefix, left) && Core(suffix, right);
      if NameValid(left + [46] + right) { ValidIsShort(left + [46] + right); }
    }
  }

  lemma TrimmedExact(value: seq<byte>)
    ensures forall text :: Trimmed(value, text) <==> text != [] && StripTrailingDots(value) == text
  {
    var n := StripTrailingExact(value);
    forall text | Trimmed(value, text)
      ensures text == value[..n]
    {
      assert value[|text| - 1] == text[|text| - 1];
    }
  }

  lemma CoreExact(value: seq<byte>)
    ensures forall text :: Core(value, text) <==> text != [] && StripTrailingDots(StripLeadingDots(value)) == text
  {
    hide Core;
    var most := |value| + 1;
    forall text
      ensures Core(value, text) <==> text != [] && StripTrailingDots(StripLeadingDots(value)) == text
    {
      ComponentExact(value, [], most);
      CoreFits(value, text);
      StrippedFits(value);
      if Core(value, StripTrailingDots(StripLeadingDots(value))) && Core(value, text) {
        CoreIsOne(value, StripTrailingDots(StripLeadingDots(value)), text);
      }
    }
  }

  lemma CoreFits(value: seq<byte>, text: seq<byte>)
    ensures Core(value, text) ==> text != [] && |text| <= |value|
  {
  }

  lemma StrippedFits(value: seq<byte>)
    ensures |StripTrailingDots(StripLeadingDots(value))| <= |value|
  {
    var n := StripLeadingExact(value);
    var m := StripTrailingExact(StripLeadingDots(value));
  }

  lemma ValidIsShort(text: seq<byte>)
    requires NameValid(text)
    ensures |text| <= 254
  {
    hide Join;
    NameValidExact(text);
  }

  /** The builder accepts exactly these services: labels of 1 to 63 bytes for instance and host, a type that is a valid
      name and not the root, a valid full name, and TXT strings of up to 255 bytes each, 65535 strings at most, and
      65535 bytes of them with their lengths. The port may be any. */
  lemma BuildableExact(s: Service)
    ensures Buildable(s) <==>
              && 1 <= |s.instance| <= 63 && 1 <= |s.host| <= 63 && (exists labels :: Spelled(s.serviceType, labels))
              && (exists text :: JoinedFrom(s.serviceType, s.domain, text) && NameValid(text))
              && |s.txt| <= 65535 && (forall i :: 0 <= i < |s.txt| ==> |s.txt[i]| <= 255) && |TxtBytes(s.txt)| <= 65535
  {
    hide NameValid, JoinedFrom, JoinedName, TxtBytes, TxtLength, Spelled;
    NameValidExact(s.serviceType);
    RootHasNoLabels();
    forall text
      ensures JoinedName(s.serviceType, s.domain) == Some(text)
         <==> JoinedFrom(s.serviceType, s.domain, text) && NameValid(text)
    {
      JoinedNameExact(s.serviceType, s.domain, text);
    }
    if JoinedName(s.serviceType, s.domain).Some? {
      assert JoinedName(s.serviceType, s.domain) == Some(JoinedName(s.serviceType, s.domain).value);
    }
    if forall i :: 0 <= i < |s.txt| ==> |s.txt[i]| <= 255 { TxtBytesLength(s.txt); }
  }

  /** A service that only fails for its type alone, which is the root or no valid name, is refused later. */
  lemma ServiceValidExact(s: Service)
    ensures ServiceValid(s) <==>
              && 1 <= |s.instance| <= 63 && 1 <= |s.host| <= 63
              && (exists text :: JoinedFrom(s.serviceType, s.domain, text) && NameValid(text))
              && |s.txt| <= 65535 && (forall i :: 0 <= i < |s.txt| ==> |s.txt[i]| <= 255) && |TxtBytes(s.txt)| <= 65535
  {
    hide NameValid, JoinedFrom, JoinedName, TxtBytes, TxtLength;
    forall text
      ensures JoinedName(s.serviceType, s.domain) == Some(text)
         <==> JoinedFrom(s.serviceType, s.domain, text) && NameValid(text)
    {
      JoinedNameExact(s.serviceType, s.domain, text);
    }
    if JoinedName(s.serviceType, s.domain).Some? {
      assert JoinedName(s.serviceType, s.domain) == Some(JoinedName(s.serviceType, s.domain).value);
    }
    if forall i :: 0 <= i < |s.txt| ==> |s.txt[i]| <= 255 { TxtBytesLength(s.txt); }
  }

  lemma RootHasNoLabels()
    ensures forall labels :: !Spelled([46], labels)
  {
    forall labels | Spelled([46], labels)
      ensures false
    {
      LabelsSpelled([46], labels);
    }
  }

  // ---------- Publications ----------

  /** The parts of a publication's names: a label of up to 63 bytes, a type and a domain, "local" unless another is
      given; the full names have at most 255 bytes. */
  ghost predicate PartsFit(name: seq<byte>, serviceType: seq<byte>, domain: seq<byte>, host: seq<byte>, n: seq<byte>,
                           t: seq<byte>, d: seq<byte>) {
    && Part(name, n, 63) && Part(serviceType, t, 255) && Part(if domain == [] then LOCAL_NAME else domain, d, 255)
    && |n| + 1 + |t| + 1 + |d| <= 255 && 1 <= |host| && |host| + 1 + |d| <= 255
  }

  /** A publication is accepted exactly if its port is not 0, its name has at most 64 bytes, the names fit, there are at
      most 16 TXT strings of at most 255 bytes each, and an address is known. */
  lemma DescribedExact(generation: nat, port: u16, name: seq<byte>, serviceType: seq<byte>, domain: seq<byte>,
                       txt: seq<seq<byte>>, ipv4: Option<Ipv4>, host: seq<byte>)
    ensures Described(generation, port, name, serviceType, domain, txt, ipv4, host).Some? <==>
              && port != 0 && |name| <= 64 && ipv4.Some?
              && |txt| <= 16 && (forall i :: 0 <= i < |txt| ==> |txt[i]| <= 255)
              && exists n, t, d :: PartsFit(name, serviceType, domain, host, n, t, d)
  {
    hide Component, PartsFit, Joined;
    var n, t, d := Component(name, [], 65), Component(serviceType, [], 256), Component(domain, LOCAL, 256);
    if n.Some? && t.Some? && d.Some? {
      PartsAre(name, serviceType, domain, host, n.value, t.value, d.value);
    }
    if Described(generation, port, name, serviceType, domain, txt, ipv4, host).Some? {
      assert PartsFit(name, serviceType, domain, host, n.value, t.value, d.value);
    }
    forall x, y, z | PartsFit(name, serviceType, domain, host, x, y, z)
      ensures name != [] && n == Some(x) && t == Some(y) && d == Some(z)
    {
      PartsAre(name, serviceType, domain, host, x, y, z);
    }
  }

  lemma PartsAre(name: seq<byte>, serviceType: seq<byte>, domain: seq<byte>, host: seq<byte>, n: seq<byte>,
                 t: seq<byte>, d: seq<byte>)
    ensures PartsFit(name, serviceType, domain, host, n, t, d) <==>
              && name != [] && Component(name, [], 65) == Some(n) && |n| <= 63
              && Component(serviceType, [], 256) == Some(t) && Component(domain, LOCAL, 256) == Some(d)
              && Joined(t, d).Some? && Joined(n, Joined(t, d).value).Some? && Joined(host, d).Some?
  {
    hide Component, Part;
    ComponentIs(name, [], 64, n);
    ComponentIs(serviceType, [], 255, t);
    ComponentIs(domain, LOCAL, 255, d);
    PartShorter(name, n);
    EmptyHasNoCore();
    PartNotEmpty(name, n);
    PartNotEmpty(serviceType, t);
    PartNotEmpty(if domain == [] then LOCAL_NAME else domain, d);
  }

  lemma PartShorter(value: seq<byte>, text: seq<byte>)
    ensures Part(value, text, 63) <==> Part(value, text, 64) && |text| <= 63
  {
  }

  lemma EmptyHasNoCore()
    ensures forall text, most :: !Part([], text, most)
  {
  }

  /** A publisher as it was announced at `now`: nothing pending, and due for repetition in a minute. */
  predicate Started(p: Publisher, q: Publisher, now: nat) {
    && q.inUse && q.generation == p.generation && q.lastAnnounce == now && q.nextAnnounce == now + 60000
    && q.txt == q.announced == p.txt && !q.pending && q.due == 0 && q.port == p.port && q.ipv4 == p.ipv4
    && q.name == p.name && q.serviceType == p.serviceType && q.domain == p.domain && q.host == p.host
    && q.serviceFqdn == p.serviceFqdn && q.instanceFqdn == p.instanceFqdn && q.hostFqdn == p.hostFqdn
  }

  /** An accepted publication takes the first free slot, whether or not its first announcement could be sent; no other
      publisher changes. Without a free slot, a socket or acceptable arguments, none that is running changes and none
      is added. */
  lemma PublishExact(x: Published, c: PublisherCall, y: Published)
    requires c.PublishCall? && CallDone(x, c, y)
    ensures y.log == x.log && |y.publishers| == |x.publishers|
    ensures var p := Described(x.generation + 1, c.port, c.name, c.serviceType, c.domain, c.txt, c.ipv4, c.host);
            if c.socketOk && p.Some? && exists k :: 0 <= k < |x.publishers| && !x.publishers[k].inUse then
              exists k ::
                && 0 <= k < |x.publishers| && !x.publishers[k].inUse
                && (forall m :: 0 <= m < k ==> x.publishers[m].inUse)
                && Started(p.value, y.publishers[k], c.now) && y.generation == x.generation + 1
                && forall m :: 0 <= m < |x.publishers| && m != k ==> y.publishers[m] == x.publishers[m]
            else
              forall m :: 0 <= m < |x.publishers| ==>
                y.publishers[m].inUse == x.publishers[m].inUse
                && (x.publishers[m].inUse ==> y.publishers[m] == x.publishers[m])
  {
    hide Component, Joined, TxtAccepted;
    var k := FreePublisher(x.publishers);
    var p := Described(x.generation + 1, c.port, c.name, c.serviceType, c.domain, c.txt, c.ipv4, c.host);
    if p.Some? { DescribedRuns(x.generation + 1, c); }
    if k < |x.publishers| && c.socketOk && p.Some? {
      assert Started(p.value, y.publishers[k], c.now);
    }
  }

  lemma DescribedRuns(generation: nat, c: PublisherCall)
    requires c.PublishCall?
    ensures match Described(generation, c.port, c.name, c.serviceType, c.domain, c.txt, c.ipv4, c.host)
            case Some(p) => p.inUse && p.generation == generation
            case None => true
  {
    hide Component, Joined, TxtAccepted;
  }

  /** An update of a running publisher with at most 16 strings of at most 255 bytes is taken over: pending exactly if it
      differs from what was announced, and due at once, but not within a second of the last announcement, nor later
      than an update that was pending before. Other publishers, and those whose update is not accepted, stay. */
  lemma UpdateExact(x: Published, handle: nat, txt: seq<seq<byte>>, now: nat, y: Published, clock: nat)
    requires CallDone(x, UpdateCall(handle, txt, now), y)
    requires handle < |x.publishers| ==> PublisherOk(x.publishers[handle], clock)
    ensures |y.publishers| == |x.publishers| && y.log == x.log && y.generation == x.generation
    ensures forall m :: 0 <= m < |x.publishers| && m != handle ==> y.publishers[m] == x.publishers[m]
    ensures handle < |x.publishers| ==>
      var p, q := x.publishers[handle], y.publishers[handle];
      var earliest := if now > p.lastAnnounce + 1000 then now else p.lastAnnounce + 1000;
      if p.inUse && |txt| <= 16 && forall i :: 0 <= i < |txt| ==> |txt[i]| <= 255 then
        && q == p.(txt := txt, pending := txt != p.announced, due := q.due)
        && q.due == (if txt == p.announced then 0 else if p.pending then p.due else earliest)
      else q == p
  {
  }

  /** An unpublished slot is free, and nothing else changes. */
  lemma UnpublishExact(x: Published, handle: nat, sendOk: bool, y: Published)
    requires CallDone(x, UnpublishCall(handle, sendOk), y)
    ensures |y.publishers| == |x.publishers| && y.log == x.log && y.generation == x.generation
    ensures forall m :: 0 <= m < |x.publishers| ==>
              if m == handle then !y.publishers[m].inUse
              else y.publishers[m] == x.publishers[m]
  {
  }

  /** A publication goes out exactly if the builder accepts its service and the packet has at most 2048 bytes. */
  lemma PublicationExact(p: Publisher, goodbye: bool)
    ensures Publication(p, goodbye).Some? <==>
              Buildable(ServiceOf(p)) && ResponseOf(ServiceOf(p), OptionsOf(goodbye)).Size() <= 2048
  {
    hide Buildable, ServiceOf;
    if Buildable(ServiceOf(p)) { ResponseOk(ServiceOf(p), OptionsOf(goodbye)); }
  }

  // ---------- Searches ----------

  /** A search has names exactly if its type and domain have cores of which the full name has at most 255 bytes. */
  lemma SearchNamesExact(serviceType: seq<byte>, domain: seq<byte>, t: seq<byte>, d: seq<byte>, full: seq<byte>)
    ensures Scene.SearchNames(serviceType, domain) == Some((t, d, full)) <==>
              && Part(serviceType, t, 255) && Part(if domain == [] then LOCAL_NAME else domain, d, 255)
              && full == t + [46] + d && |full| <= 255
  {
    hide Component, Part;
    var a, b := Component(serviceType, [], 256), Component(domain, LOCAL, 256);
    ComponentIs(serviceType, [], 255, t);
    ComponentIs(domain, LOCAL, 255, d);
    EmptyHasNoCore();
    PartNotEmpty(serviceType, t);
    PartNotEmpty(if domain == [] then LOCAL_NAME else domain, d);
    if a.Some? && b.Some? {
      ComponentIs(serviceType, [], 255, a.value);
      ComponentIs(domain, LOCAL, 255, b.value);
    }
  }

  /** A search that was just started. */
  predicate Fresh(s: Search, generation: nat, serviceType: seq<byte>, domain: seq<byte>, full: seq<byte>) {
    && s.inUse && s.generation == generation && s.serviceType == serviceType && s.domain == domain
    && s.serviceFqdn == full && |s.discovered| == 64 && |s.addresses| == 32
    && (forall i :: 0 <= i < 64 ==> !s.discovered[i].inUse) && forall i :: 0 <= i < 32 ==> !s.addresses[i].inUse
  }

  /** A search is accepted if there is a free slot, a socket and a name; it takes the first free slot, with the
      callbacks it was given, knows nothing yet, and asks again in two seconds. Other searches stay, and a search
      that is not accepted changes none that is running. */
  lemma StartExact(x: Runs.Moment, op: Steps.GuestOp, y: Runs.Moment)
    requires op.StartOp? && Runs.StartDone(x, op, y)
    ensures |y.searches| == |x.searches|
    ensures var names := Scene.SearchNames(op.serviceType, op.domain);
            if op.socketOk && names.Some? && exists k :: 0 <= k < |x.searches| && !x.searches[k].inUse then
              exists k ::
                && 0 <= k < |x.searches| && !x.searches[k].inUse && (forall m :: 0 <= m < k ==> x.searches[m].inUse)
                && Fresh(y.searches[k], x.books.generation + 1, names.value.0, names.value.1, names.value.2)
                && y.searches[k].found == op.found && y.searches[k].update == op.update && y.searches[k].lost == op.lost
                && y.searches[k].nextQuery == op.now + 2000
                && forall m :: 0 <= m < |x.searches| && m != k ==> y.searches[m] == x.searches[m]
            else
              forall m :: 0 <= m < |x.searches| ==>
                y.searches[m].inUse == x.searches[m].inUse
                && (x.searches[m].inUse ==> y.searches[m] == x.searches[m])
  {
    var k, names := Scene.FreeSearch(x.searches), Scene.SearchNames(op.serviceType, op.domain);
    if k < |x.searches| && op.socketOk && names.Some? {
      NewIsFresh(y.books.generation, names.value.0, names.value.1, names.value.2, op.found, op.update, op.lost,
                 op.now + 2000);
    }
  }

  lemma NewIsFresh(generation: nat, t: seq<byte>, d: seq<byte>, full: seq<byte>, found: bool, update: bool, lost: bool,
                   next: nat)
    ensures Fresh(Scene.NewSearch(generation, t, d, full, found, update, lost, next), generation, t, d, full)
  {
  }

  /** There is room for four searches and four publishers. */
  lemma FourOfEach(ss: seq<Search>, now: u64, ps: seq<Publisher>, generation: nat, log: seq<Announcement>, clock: nat)
    ensures Steps.SearchesOk(ss, now) ==> |ss| == 4
    ensures AllOk(ps, generation, log, clock) ==> |ps| == 4
  {
    hide Steps.SearchOk, Spaced, Unique, PublisherOk;
  }
}
