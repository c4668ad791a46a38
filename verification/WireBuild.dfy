/** Building queries and the compressed service response. */
module WireBuild {
  import opened WireNames
  import opened WireWriter
  import opened WireParse

  const MAX_POINTER := 0x3fff

  /** Instance and host are single labels: a dot in them is an ordinary byte. */
  datatype Service = Service(serviceType: seq<byte>, domain: seq<byte>, instance: seq<byte>, host: seq<byte>,
                             port: u16, ipv4: Ipv4, txt: seq<seq<byte>>)

  datatype ResponseOptions = ResponseOptions(headerFlags: u16, ttl: u32, cacheFlush: bool, goodbye: bool)

  // ---------- Specification ----------

  function PointerBytes(offset: nat): (bytes: seq<byte>)
    requires offset <= MAX_POINTER
    ensures |bytes| == 2
  {
    U16(0xc000 + offset)
  }

  function RecordHeader(rtype: u16, class_: u16, ttl: u32): (bytes: seq<byte>)
    ensures |bytes| == 8
  {
    U16(rtype) + U16(class_) + U32(ttl)
  }

  function RecordBytes(owner: seq<byte>, rtype: u16, class_: u16, ttl: u32, rdata: seq<byte>): (bytes: seq<byte>)
    requires |rdata| <= 0xffff
    ensures |bytes| == |owner| + 10 + |rdata|
  {
    owner + RecordHeader(rtype, class_, ttl) + U16(|rdata|) + rdata
  }

  function UniqueClass(flush: bool): u16 {
    CLASS_IN + if flush then CACHE_FLUSH else 0
  }

  function QueryBytes(name: seq<byte>, qtype: u16, unicastResponse: bool): seq<byte>
    requires NameValid(name)
  {
    U16(0) + U16(0) + U16(1) + U16(0) + U16(0) + U16(0)
    + EncodeName(Labels(name)) + U16(qtype) + U16(UniqueClass(unicastResponse))
  }

  function TxtLength(txt: seq<seq<byte>>): nat {
    if txt == [] then 0 else 1 + |txt[0]| + TxtLength(txt[1..])
  }

  predicate TxtOk(txt: seq<seq<byte>>) {
    && |txt| <= 0xffff
    && (forall i :: 0 <= i < |txt| ==> |txt[i]| <= 255)
    && TxtLength(txt) <= 0xffff
  }

  predicate ServiceValid(s: Service) {
    && LabelOk(s.instance) && LabelOk(s.host)
    && JoinedName(s.serviceType, s.domain).Some?
    && TxtOk(s.txt)
  }

  /** What the builder accepts: the type must also be a name of its own. */
  predicate Buildable(s: Service) {
    ServiceValid(s) && NameValid(s.serviceType) && s.serviceType != [DOT]
  }

  function ServiceName(s: Service): seq<byte>
    requires ServiceValid(s)
  {
    JoinedName(s.serviceType, s.domain).value
  }

  lemma {:induction false} TxtBytesLength(txt: seq<seq<byte>>)
    requires forall i :: 0 <= i < |txt| ==> |txt[i]| <= 255
    ensures |TxtBytes(txt)| == TxtLength(txt)
  {
    if txt == [] {
    } else {
      TxtBytesLength(txt[1..]);
    }
  }

  /** What goes into a response once names are labels: `prefix` bytes of the service name precede its domain. */
  datatype Response = Response(labels: seq<Label>, prefix: nat, instance: Label, host: Label, port: u16, ipv4: Ipv4,
                               txt: seq<seq<byte>>, class_: u16, ttl: u32, flags: u16)
  {
    predicate Ok() {
      && LabelsOk(labels) && WireLength(labels) <= MAX_WIRE_NAME && prefix <= BodyLength(labels)
      && LabelOk(instance) && LabelOk(host) && TxtOk(txt)
    }

    // The offsets the compression pointers refer to, computed by arithmetic.

    function DomainAt(): nat { HEADER_SIZE + prefix }
    function InstanceAt(): nat { HEADER_SIZE + WireLength(labels) + 10 }
    function SrvAt(): nat { InstanceAt() + |instance| + 3 }
    function HostAt(): nat { SrvAt() + 2 + 10 + 6 }
    function TxtAt(): nat { HostAt() + |host| + 3 }
    function AddressAt(): nat { TxtAt() + 2 + 10 + TxtLength(txt) }
    function Size(): nat { AddressAt() + 2 + 10 + 4 }

    function Header(): (bytes: seq<byte>)
      ensures |bytes| == HEADER_SIZE
    {
      U16(0) + U16(flags) + U16(0) + U16(1) + U16(0) + U16(3)
    }

    function PtrData(): (bytes: seq<byte>)
      requires Ok()
      ensures |bytes| == |instance| + 3
    {
      LengthPrefixed(instance) + PointerBytes(HEADER_SIZE)
    }

    function SrvData(): (bytes: seq<byte>)
      requires Ok()
      ensures |bytes| == |host| + 9
    {
      U16(0) + U16(0) + U16(port) + LengthPrefixed(host) + PointerBytes(DomainAt())
    }

    function PtrRecord(): (bytes: seq<byte>)
      requires Ok()
      ensures |bytes| == SrvAt() - HEADER_SIZE
    {
      RecordBytes(EncodeName(labels), TYPE_PTR, CLASS_IN, ttl, PtrData())
    }

    function SrvRecord(): (bytes: seq<byte>)
      requires Ok()
      ensures |bytes| == TxtAt() - SrvAt()
    {
      RecordBytes(PointerBytes(InstanceAt()), TYPE_SRV, class_, ttl, SrvData())
    }

    function TxtRecord(): (bytes: seq<byte>)
      requires Ok()
      ensures |bytes| == AddressAt() - TxtAt()
    {
      TxtBytesLength(txt);
      RecordBytes(PointerBytes(InstanceAt()), TYPE_TXT, class_, ttl, TxtBytes(txt))
    }

    function ARecord(): (bytes: seq<byte>)
      requires Ok()
      ensures |bytes| == 16
    {
      RecordBytes(PointerBytes(HostAt()), TYPE_A, class_, ttl, ipv4)
    }

    function Bytes(): (bytes: seq<byte>)
      requires Ok()
      ensures |bytes| == Size()
    {
      Header() + PtrRecord() + SrvRecord() + TxtRecord() + ARecord()
    }
  }

  function TtlOf(o: ResponseOptions): u32 {
    if o.goodbye then 0 else o.ttl
  }

  function ResponseOf(s: Service, o: ResponseOptions): Response
    requires Buildable(s)
  {
    Response(Labels(ServiceName(s)), BodyLength(Labels(s.serviceType)), s.instance, s.host, s.port, s.ipv4, s.txt,
             UniqueClass(o.cacheFlush), TtlOf(o), o.headerFlags)
  }

  // The labels of a service name: the type's, then the domain's.

  function DomainLabels(s: Service): seq<Label> {
    Split(StripTrailingDots(StripLeadingDots(s.domain)))
  }

  lemma {:induction false} StrippedEnd(s: seq<byte>)
    ensures var t := StripTrailingDots(s); t == [] || t[|t| - 1] != DOT
  {
    if s != [] && s[|s| - 1] == DOT { StrippedEnd(s[..|s| - 1]); }
  }

  lemma SplitCons(c: byte, s: seq<byte>)
    ensures Split([c] + s) == if c == DOT then [[]] + Split(s) else [[c] + Split(s)[0]] + Split(s)[1..]
  {
    assert ([c] + s)[1..] == s;
  }

  lemma ConcatHead(c: byte, x: seq<Label>, y: seq<Label>)
    requires x != []
    ensures [[]] + (x + y) == [[]] + x + y
    ensures [[c] + (x + y)[0]] + (x + y)[1..] == [[c] + x[0]] + x[1..] + y
  {
    assert (x + y)[1..] == x[1..] + y;
  }

  lemma SplitConcatStep(c: byte, t: seq<byte>, b: seq<byte>)
    requires Split(t + [DOT] + b) == Split(t) + Split(b)
    ensures Split([c] + t + [DOT] + b) == Split([c] + t) + Split(b)
  {
    hide Split;
    SplitCons(c, t);
    SplitCons(c, t + [DOT] + b);
    assert [c] + (t + [DOT] + b) == [c] + t + [DOT] + b;
    ConcatHead(c, Split(t), Split(b));
  }

  lemma {:induction false} SplitConcat(a: seq<byte>, b: seq<byte>)
    ensures Split(a + [DOT] + b) == Split(a) + Split(b)
    decreases |a|
  {
    if a == [] {
      SplitCons(DOT, b);
      assert a + [DOT] + b == [DOT] + b;
    } else {
      SplitConcat(a[1..], b);
      SplitConcatStep(a[0], a[1..], b);
      assert [a[0]] + a[1..] == a;
    }
  }

  lemma EmptyPieceBad(labels: seq<Label>)
    ensures !LabelsOk(labels + [[]])
  {
    assert !LabelOk((labels + [[]])[|labels|]);
  }

  lemma TypeIsStripped(serviceType: seq<byte>)
    requires NameValid(serviceType) && serviceType != [DOT]
    ensures Labels(serviceType) == Split(StripTrailingDots(serviceType))
  {
    var t := WithoutTrailingDot(serviceType);
    if t != [] && t[|t| - 1] == DOT {
      assert t[..|t| - 1] + [DOT] == t;
      EmptyPieceBad(Split(t[..|t| - 1]));
      SplitTrailingDot(t[..|t| - 1]);
    } else {
      assert StripTrailingDots(t) == t;
      assert StripTrailingDots(serviceType) == t;
    }
  }

  /** The service name is the type's labels and then the domain's: the computed prefix length is where the domain
      starts. */
  lemma ServiceLabels(s: Service)
    requires Buildable(s)
    ensures Labels(ServiceName(s)) == Labels(s.serviceType) + DomainLabels(s)
    ensures LabelsOk(Labels(s.serviceType)) && LabelsOk(DomainLabels(s))
    ensures DisplayText(Labels(ServiceName(s))) == ServiceName(s)
    ensures |DomainLabels(s)| >= 1 && Join(DomainLabels(s)) == StripTrailingDots(StripLeadingDots(s.domain))
  {
    var left, right := StripTrailingDots(s.serviceType), StripTrailingDots(StripLeadingDots(s.domain));
    var name := ServiceName(s);
    TypeIsStripped(s.serviceType);
    StrippedEnd(StripLeadingDots(s.domain));
    assert name == left + [DOT] + right;
    assert name[|name| - 1] == right[|right| - 1];
    SplitConcat(left, right);
    LabelsText(name);
    JoinSplit(right);
    LabelsOkConcat(Labels(s.serviceType), DomainLabels(s));
  }

  lemma ResponseOk(s: Service, o: ResponseOptions)
    requires Buildable(s)
    ensures ResponseOf(s, o).Ok()
  {
    ServiceLabels(s);
    BodyLengthConcat(Labels(s.serviceType), DomainLabels(s));
  }

  function ServicePacket(s: Service, o: ResponseOptions): seq<byte>
    requires Buildable(s)
  {
    ResponseOk(s, o);
    ResponseOf(s, o).Bytes()
  }

  // ---------- The code ----------

  /** mdns_wire_build_query */
  method BuildQuery(buffer: array<byte>, capacity: nat, name: seq<byte>, qtype: u16, unicastResponse: bool)
    returns (status: Status, packetSize: nat)
    requires capacity <= buffer.Length
    modifies buffer
    ensures status == InvalidArgument <==> !NameValid(name) || qtype == 0
    ensures NameValid(name) && qtype != 0 ==>
      var bytes := QueryBytes(name, qtype, unicastResponse);
      if |bytes| <= capacity then status == Ok && packetSize == |bytes| && buffer[..packetSize] == bytes
      else status == BufferTooSmall
    ensures status != Ok ==> packetSize == 0
    ensures buffer[capacity..] == old(buffer[capacity..])
  {
    packetSize := 0;
    var valid, _ := DottedNameValid(name);
    if !valid || qtype == 0 {
      return InvalidArgument, 0;
    }
    var w := new WireWriter(buffer, capacity, 0);
    assert buffer[..0] == [];
    var header := U16(0) + U16(0) + U16(1) + U16(0) + U16(0) + U16(0);
    WriteHeader(w, 0, 0, 1, 0, 0, 0);
    WriteName(w, name, header);
    w.Bytes(U16(qtype), header + EncodeName(Labels(name)));
    w.Bytes(U16(UniqueClass(unicastResponse)), header + EncodeName(Labels(name)) + U16(qtype));
    if w.failed {
      return BufferTooSmall, 0;
    }
    return Ok, w.offset;
  }

  /** The six header fields, one write each. */
  method WriteHeader(w: WireWriter, id: u16, flags: u16, questions: u16, answers: u16, authorities: u16,
                     additionals: u16)
    requires w.Valid() && w.View() == Fit([], w.capacity)
    modifies w, w.data
    ensures w.Valid()
    ensures w.View()
         == Fit(U16(id) + U16(flags) + U16(questions) + U16(answers) + U16(authorities) + U16(additionals), w.capacity)
    ensures w.data[w.capacity..] == old(w.data[w.capacity..])
  {
    w.Bytes(U16(id), []);
    assert [] + U16(id) == U16(id);
    w.Bytes(U16(flags), U16(id));
    w.Bytes(U16(questions), U16(id) + U16(flags));
    w.Bytes(U16(answers), U16(id) + U16(flags) + U16(questions));
    w.Bytes(U16(authorities), U16(id) + U16(flags) + U16(questions) + U16(answers));
    w.Bytes(U16(additionals), U16(id) + U16(flags) + U16(questions) + U16(answers) + U16(authorities));
  }

  /** writer_pointer; a failed writer may pass any offset, it stays failed. */
  method WritePointer(w: WireWriter, offset: nat, ghost intended: nat, ghost sofar: seq<byte>)
    requires w.Valid() && w.View() == Fit(sofar, w.capacity)
    requires intended <= MAX_POINTER && (!w.failed ==> offset == intended)
    modifies w, w.data
    ensures w.Valid() && w.View() == Fit(sofar + PointerBytes(intended), w.capacity)
    ensures w.data[w.capacity..] == old(w.data[w.capacity..])
  {
    if offset > MAX_POINTER {
      w.Fail();
      return;
    }
    w.Bytes(U16(0xc000 + offset), sofar);
  }

  /** writer_record_header: a zero length is left to be patched. `sofar` ends in the record's owner. */
  method WriteRecordHeader(w: WireWriter, rtype: u16, class_: u16, ttl: u32, ghost sofar: seq<byte>)
    returns (lengthOffset: nat, rdataOffset: nat)
    requires w.Valid() && w.View() == Fit(sofar, w.capacity)
    modifies w, w.data
    ensures w.Valid() && w.View() == Fit(Unpatched(sofar, rtype, class_, ttl), w.capacity)
    ensures !w.failed ==> lengthOffset == |sofar| + 8 && rdataOffset == |sofar| + 10
    ensures w.data[w.capacity..] == old(w.data[w.capacity..])
  {
    w.Bytes(U16(rtype), sofar);
    w.Bytes(U16(class_), sofar + U16(rtype));
    w.Bytes(U32(ttl), sofar + U16(rtype) + U16(class_));
    assert sofar + U16(rtype) + U16(class_) + U32(ttl) == sofar + RecordHeader(rtype, class_, ttl);
    lengthOffset := w.offset;
    w.Bytes(U16(0), sofar + RecordHeader(rtype, class_, ttl));
    rdataOffset := w.offset;
  }

  /** A record under construction: its length is still zero. */
  ghost function Unpatched(sofar: seq<byte>, rtype: u16, class_: u16, ttl: u32): (bytes: seq<byte>)
    ensures |bytes| == |sofar| + 10
  {
    sofar + RecordHeader(rtype, class_, ttl) + U16(0)
  }

  lemma PatchedRecord(sofar: seq<byte>, owner: seq<byte>, rtype: u16, class_: u16, ttl: u32, rdata: seq<byte>)
    requires |rdata| <= 0xffff
    ensures sofar + owner + RecordHeader(rtype, class_, ttl) + U16(|rdata|) + rdata
         == sofar + RecordBytes(owner, rtype, class_, ttl, rdata)
  {
  }

  /** writer_finish_record: patches the length of the data written since the header; data that is too long fails the
      writer. */
  method FinishRecord(w: WireWriter, lengthOffset: nat, rdataOffset: nat, ghost sofar: seq<byte>,
                      ghost owner: seq<byte>, ghost rtype: u16, ghost class_: u16, ghost ttl: u32,
                      ghost rdata: seq<byte>)
    requires w.Valid() && w.View() == Fit(Unpatched(sofar + owner, rtype, class_, ttl) + rdata, w.capacity)
    requires !w.failed ==> lengthOffset == |sofar| + |owner| + 8 && rdataOffset == |sofar| + |owner| + 10
    modifies w, w.data
    ensures w.Valid()
    ensures w.View() == if |rdata| <= 0xffff then Fit(sofar + RecordBytes(owner, rtype, class_, ttl, rdata), w.capacity)
                        else Overflow
    ensures w.data[w.capacity..] == old(w.data[w.capacity..])
  {
    if w.failed || w.offset < rdataOffset || w.offset - rdataOffset > 0xffff {
      w.Fail();
      return;
    }
    ghost var before := sofar + owner + RecordHeader(rtype, class_, ttl);
    ghost var whole := w.data[..];
    assert whole[..w.offset] == before + U16(0) + rdata;
    w.PatchU16(lengthOffset, w.offset - rdataOffset);
    PatchedBytes(whole, w.data[..], w.offset, w.capacity, before, rdata);
    PatchedRecord(sofar, owner, rtype, class_, ttl, rdata);
  }

  /** What two patched bytes do to a buffer: everything else stays. */
  lemma PatchedBytes(whole: seq<byte>, patched: seq<byte>, offset: nat, capacity: nat, before: seq<byte>,
                     after: seq<byte>)
    requires offset <= capacity <= |whole| && |after| <= 0xffff && whole[..offset] == before + U16(0) + after
    requires patched == whole[..|before|] + U16(|after|) + whole[|before| + 2..]
    ensures patched[..offset] == before + U16(|after|) + after && patched[capacity..] == whole[capacity..]
  {
    hide U16;
    var n := |before|;
    assert whole[..n] == whole[..offset][..n] == before;
    assert whole[n + 2..offset] == whole[..offset][n + 2..] == after;
    assert whole[n + 2..] == after + whole[offset..];
  }

  /** The TXT loop of the response builder. */
  method WriteTxt(w: WireWriter, txt: seq<seq<byte>>, ghost sofar: seq<byte>)
    requires forall i :: 0 <= i < |txt| ==> |txt[i]| <= 255
    requires w.Valid() && w.View() == Fit(sofar, w.capacity)
    modifies w, w.data
    ensures w.Valid() && w.View() == Fit(sofar + TxtBytes(txt), w.capacity)
    ensures w.data[w.capacity..] == old(w.data[w.capacity..])
  {
    ghost var total: seq<byte>, text: seq<byte> := sofar + TxtBytes(txt), sofar;
    assert txt[0..] == txt;
    for i := 0 to |txt|
      invariant text + TxtBytes(txt[i..]) == total
      invariant w.Valid() && w.View() == Fit(text, w.capacity)
      invariant w.data[w.capacity..] == old(w.data[w.capacity..])
    {
      assert txt[i..][1..] == txt[i + 1..];
      w.Bytes([|txt[i]|], text);
      w.Bytes(txt[i], text + [|txt[i]|]);
      assert text + [|txt[i]|] + txt[i] == text + LengthPrefixed(txt[i]);
      assert text + TxtBytes(txt[i..]) == text + LengthPrefixed(txt[i]) + TxtBytes(txt[i + 1..]);
      text := text + LengthPrefixed(txt[i]);
    }
    assert |txt[|txt|..]| == 0;
    assert text == total;
  }

  /** service_valid */
  method CheckService(s: Service) returns (valid: bool)
    ensures valid <==> ServiceValid(s)
  {
    if !(1 <= |s.instance| <= MAX_LABEL) || !(1 <= |s.host| <= MAX_LABEL) || |s.txt| > 0xffff {
      return false;
    }
    var joined := JoinName(s.serviceType, s.domain);
    if joined.None? {
      return false;
    }
    var txtLength := 0;
    assert s.txt[0..] == s.txt;
    var i := 0;
    while i < |s.txt|
      invariant 0 <= i <= |s.txt|
      invariant txtLength + TxtLength(s.txt[i..]) == TxtLength(s.txt) && txtLength <= 0xffff
      invariant forall k :: 0 <= k < i ==> |s.txt[k]| <= 255
    {
      assert s.txt[i..][1..] == s.txt[i + 1..];
      if |s.txt[i]| > 255 || txtLength > 0xffff - (|s.txt[i]| + 1) {
        return false;
      }
      txtLength := txtLength + |s.txt[i]| + 1;
      i := i + 1;
    }
    assert |s.txt[i..]| == 0;
    return true;
  }

  /** The PTR record; returns where the instance label went. */
  method WritePtrRecord(w: WireWriter, name: seq<byte>, instance: Label, ttl: u32, ghost r: Response)
    returns (instanceOffset: nat)
    requires r.Ok() && NameValid(name) && r.labels == Labels(name) && r.instance == instance && r.ttl == ttl
    requires w.Valid() && w.View() == Fit(r.Header(), w.capacity)
    modifies w, w.data
    ensures w.Valid() && w.View() == Fit(r.Header() + r.PtrRecord(), w.capacity)
    ensures !w.failed ==> instanceOffset == r.InstanceAt()
    ensures w.data[w.capacity..] == old(w.data[w.capacity..])
  {
    ghost var head, owner := r.Header(), EncodeName(Labels(name));
    var serviceOffset := w.offset;
    WriteName(w, name, head);
    var lengthOffset, rdataOffset := WriteRecordHeader(w, TYPE_PTR, CLASS_IN, ttl, head + owner);
    ghost var start := Unpatched(head + owner, TYPE_PTR, CLASS_IN, ttl);
    instanceOffset := w.offset;
    WriteLabel(w, instance, start);
    WritePointer(w, serviceOffset, HEADER_SIZE, start + LengthPrefixed(instance));
    assert start + LengthPrefixed(instance) + PointerBytes(HEADER_SIZE) == start + r.PtrData();
    FinishRecord(w, lengthOffset, rdataOffset, head, owner, TYPE_PTR, CLASS_IN, ttl, r.PtrData());
  }

  /** The SRV record; returns where the host label went. */
  method WriteSrvRecord(w: WireWriter, host: Label, port: u16, class_: u16, ttl: u32, instanceOffset: nat,
                        domainOffset: nat, ghost r: Response, ghost sofar: seq<byte>)
    returns (hostOffset: nat)
    requires r.Ok() && r.host == host && r.port == port && r.class_ == class_ && r.ttl == ttl
    requires w.Valid() && w.View() == Fit(sofar, w.capacity) && |sofar| == r.SrvAt()
    requires !w.failed ==> instanceOffset == r.InstanceAt() && domainOffset == r.DomainAt()
    modifies w, w.data
    ensures w.Valid() && w.View() == Fit(sofar + r.SrvRecord(), w.capacity)
    ensures !w.failed ==> hostOffset == r.HostAt()
    ensures w.data[w.capacity..] == old(w.data[w.capacity..])
  {
    hide EncodeName, BodyLength, TxtLength, LabelsOk, U16, RecordHeader, PointerBytes;
    WritePointer(w, instanceOffset, r.InstanceAt(), sofar);
    ghost var owner := PointerBytes(r.InstanceAt());
    var lengthOffset, rdataOffset := WriteRecordHeader(w, TYPE_SRV, class_, ttl, sofar + owner);
    ghost var start := Unpatched(sofar + owner, TYPE_SRV, class_, ttl);
    hostOffset := WriteSrvData(w, host, port, domainOffset, r, start);
    FinishRecord(w, lengthOffset, rdataOffset, sofar, owner, TYPE_SRV, class_, ttl, r.SrvData());
  }

  /** Priority, weight and port, then the host as a label and a pointer to the domain. */
  method WriteSrvData(w: WireWriter, host: Label, port: u16, domainOffset: nat, ghost r: Response,
                      ghost start: seq<byte>)
    returns (hostOffset: nat)
    requires r.Ok() && r.host == host && r.port == port
    requires w.Valid() && w.View() == Fit(start, w.capacity) && (!w.failed ==> domainOffset == r.DomainAt())
    modifies w, w.data
    ensures w.Valid() && w.View() == Fit(start + r.SrvData(), w.capacity)
    ensures !w.failed ==> hostOffset == |start| + 6
    ensures w.data[w.capacity..] == old(w.data[w.capacity..])
  {
    hide EncodeName, BodyLength, TxtLength, LabelsOk, U16, PointerBytes;
    w.Bytes(U16(0), start);
    w.Bytes(U16(0), start + U16(0));
    w.Bytes(U16(port), start + U16(0) + U16(0));
    ghost var ports := start + U16(0) + U16(0) + U16(port);
    hostOffset := w.offset;
    WriteLabel(w, host, ports);
    WritePointer(w, domainOffset, r.DomainAt(), ports + LengthPrefixed(host));
    assert ports + LengthPrefixed(host) + PointerBytes(r.DomainAt()) == start + r.SrvData();
  }

  method WriteTxtRecord(w: WireWriter, txt: seq<seq<byte>>, class_: u16, ttl: u32, instanceOffset: nat,
                        ghost r: Response, ghost sofar: seq<byte>)
    requires r.Ok() && r.txt == txt && r.class_ == class_ && r.ttl == ttl
    requires w.Valid() && w.View() == Fit(sofar, w.capacity)
    requires !w.failed ==> instanceOffset == r.InstanceAt()
    modifies w, w.data
    ensures w.Valid() && w.View() == Fit(sofar + r.TxtRecord(), w.capacity)
    ensures w.data[w.capacity..] == old(w.data[w.capacity..])
  {
    WritePointer(w, instanceOffset, r.InstanceAt(), sofar);
    ghost var owner := PointerBytes(r.InstanceAt());
    var lengthOffset, rdataOffset := WriteRecordHeader(w, TYPE_TXT, class_, ttl, sofar + owner);
    WriteTxt(w, txt, Unpatched(sofar + owner, TYPE_TXT, class_, ttl));
    TxtBytesLength(txt);
    FinishRecord(w, lengthOffset, rdataOffset, sofar, owner, TYPE_TXT, class_, ttl, TxtBytes(txt));
  }

  method WriteARecord(w: WireWriter, ipv4: Ipv4, class_: u16, ttl: u32, hostOffset: nat, ghost r: Response,
                      ghost sofar: seq<byte>)
    requires r.Ok() && r.ipv4 == ipv4 && r.class_ == class_ && r.ttl == ttl
    requires w.Valid() && w.View() == Fit(sofar, w.capacity)
    requires !w.failed ==> hostOffset == r.HostAt()
    modifies w, w.data
    ensures w.Valid() && w.View() == Fit(sofar + r.ARecord(), w.capacity)
    ensures w.data[w.capacity..] == old(w.data[w.capacity..])
  {
    WritePointer(w, hostOffset, r.HostAt(), sofar);
    ghost var owner := PointerBytes(r.HostAt());
    var lengthOffset, rdataOffset := WriteRecordHeader(w, TYPE_A, class_, ttl, sofar + owner);
    w.Bytes(ipv4, Unpatched(sofar + owner, TYPE_A, class_, ttl));
    FinishRecord(w, lengthOffset, rdataOffset, sofar, owner, TYPE_A, class_, ttl, ipv4);
  }

  /** The writes of the response builder, in order. */
  method WriteResponse(w: WireWriter, s: Service, o: ResponseOptions, name: seq<byte>, prefixLength: nat,
                       ghost r: Response)
    requires r.Ok() && NameValid(name)
    requires r == Response(Labels(name), prefixLength, s.instance, s.host, s.port, s.ipv4, s.txt,
                           UniqueClass(o.cacheFlush), TtlOf(o), o.headerFlags)
    requires w.Valid() && w.View() == Fit([], w.capacity)
    modifies w, w.data
    ensures w.Valid() && w.View() == Fit(r.Bytes(), w.capacity)
    ensures w.data[w.capacity..] == old(w.data[w.capacity..])
  {
    var ttl: u32 := if o.goodbye then 0 else o.ttl;
    var class_ := UniqueClass(o.cacheFlush);
    WriteHeader(w, 0, o.headerFlags, 0, 1, 0, 3);
    var domainOffset := w.offset + prefixLength;
    var instanceOffset := WritePtrRecord(w, name, s.instance, ttl, r);
    ghost var afterPtr := r.Header() + r.PtrRecord();
    var hostOffset := WriteSrvRecord(w, s.host, s.port, class_, ttl, instanceOffset, domainOffset, r, afterPtr);
    WriteTxtRecord(w, s.txt, class_, ttl, instanceOffset, r, afterPtr + r.SrvRecord());
    WriteARecord(w, s.ipv4, class_, ttl, hostOffset, r, afterPtr + r.SrvRecord() + r.TxtRecord());
  }

  /** mdns_wire_build_service_response: exactly the specified packet when it fits, nothing but a status otherwise. */
  method BuildServiceResponse(buffer: array<byte>, capacity: nat, s: Service, o: ResponseOptions, packetSize: nat)
    returns (status: Status, newSize: nat)
    requires capacity <= buffer.Length
    modifies buffer
    ensures !ServiceValid(s) ==> status == InvalidArgument && newSize == packetSize
    ensures ServiceValid(s) && !Buildable(s) ==> status == InvalidArgument && newSize == 0
    ensures Buildable(s) ==>
      if |ServicePacket(s, o)| <= capacity then
        status == Ok && newSize == |ServicePacket(s, o)| && buffer[..newSize] == ServicePacket(s, o)
      else status == BufferTooSmall && newSize == 0
    ensures buffer[capacity..] == old(buffer[capacity..])
  {
    newSize := packetSize;
    var valid := CheckService(s);
    if !valid {
      return InvalidArgument, packetSize;
    }
    newSize := 0;
    var joined := JoinName(s.serviceType, s.domain);
    var ok, prefixLength := DottedPrefixWireLength(s.serviceType);
    if !ok {
      return InvalidArgument, 0;
    }
    var w := new WireWriter(buffer, capacity, 0);
    assert buffer[..0] == [];
    ResponseOk(s, o);
    WriteResponse(w, s, o, joined.value, prefixLength, ResponseOf(s, o));
    if w.failed {
      return BufferTooSmall, 0;
    }
    return Ok, w.offset;
  }
}
