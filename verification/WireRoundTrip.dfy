/** Decoding undoes encoding: names, queries and the compressed service response. */
module WireRoundTrip {
  import opened Options
  import opened WireNames
  import opened WireDecode
  import opened WireWriter
  import opened WireParse
  import opened WireBuild

  // ---------- Bytes at an offset ----------

  ghost predicate At(packet: seq<byte>, offset: nat, bytes: seq<byte>) {
    offset + |bytes| <= |packet| && packet[offset..offset + |bytes|] == bytes
  }

  lemma AtSplit(packet: seq<byte>, offset: nat, a: seq<byte>, b: seq<byte>)
    requires At(packet, offset, a + b)
    ensures At(packet, offset, a) && At(packet, offset + |a|, b)
  {
    var whole := packet[offset..offset + |a + b|];
    assert whole[..|a|] == a && whole[|a|..] == b;
    assert packet[offset..offset + |a|] == whole[..|a|];
    assert packet[offset + |a|..offset + |a| + |b|] == whole[|a|..];
  }

  lemma AtByte(packet: seq<byte>, offset: nat, bytes: seq<byte>, i: nat)
    requires At(packet, offset, bytes) && i < |bytes|
    ensures packet[offset + i] == bytes[i]
  {
    assert packet[offset..offset + |bytes|][i] == bytes[i];
  }

  // ---------- Names on the wire ----------

  function Literals(n: nat, tail: Expansion): Expansion {
    if n == 0 then tail else Literal(Literals(n - 1, tail))
  }

  /** An expansion of the name at `offset` with these labels, end and number of jumps. */
  ghost predicate Spells(packet: seq<byte>, offset: nat, e: Expansion, labels: seq<Label>, end: nat, jumps: nat) {
    && Expands(packet, offset, e)
    && ExpandedLabels(packet, offset, e) == labels
    && InPlaceEnd(packet, offset, e) == end
    && e.Jumps() == jumps
  }

  lemma SpellsRoot(packet: seq<byte>, offset: nat)
    requires At(packet, offset, [0])
    ensures Spells(packet, offset, Root, [], offset + 1, 0)
  {
    AtByte(packet, offset, [0], 0);
  }

  lemma SpellsLabel(packet: seq<byte>, offset: nat, text: Label, e: Expansion, labels: seq<Label>, end: nat, jumps: nat)
    requires LabelOk(text) && At(packet, offset, LengthPrefixed(text))
    requires Spells(packet, offset + 1 + |text|, e, labels, end, jumps)
    ensures Spells(packet, offset, Literal(e), [text] + labels, end, jumps)
  {
    AtByte(packet, offset, LengthPrefixed(text), 0);
    AtSplit(packet, offset, [|text|], text);
  }

  lemma SpellsPointer(packet: seq<byte>, offset: nat, target: nat, e: Expansion, labels: seq<Label>, end: nat,
                      jumps: nat)
    requires target <= MAX_POINTER && At(packet, offset, PointerBytes(target))
    requires Spells(packet, target, e, labels, end, jumps)
    ensures Spells(packet, offset, Pointer(e), labels, offset + 2, jumps + 1)
  {
    AtByte(packet, offset, PointerBytes(target), 0);
    AtByte(packet, offset, PointerBytes(target), 1);
    assert e.Root? || e.Literal? || e.Pointer?;
    assert target < |packet|;
  }

  lemma {:induction false} SpellsLabels(packet: seq<byte>, offset: nat, labels: seq<Label>)
    requires LabelsOk(labels) && At(packet, offset, EncodeName(labels))
    ensures Spells(packet, offset, Literals(|labels|, Root), labels, offset + WireLength(labels), 0)
    decreases |labels|
  {
    hide At;
    if labels == [] {
      assert EncodeName(labels) == [0];
      SpellsRoot(packet, offset);
    } else {
      EncodeStep(labels, [], EncodeLabels(labels));
      assert EncodeName(labels) == LengthPrefixed(labels[0]) + EncodeName(labels[1..]);
      AtSplit(packet, offset, LengthPrefixed(labels[0]), EncodeName(labels[1..]));
      SpellsLabels(packet, offset + 1 + |labels[0]|, labels[1..]);
      SpellsLabel(packet, offset, labels[0], Literals(|labels| - 1, Root), labels[1..], offset + WireLength(labels), 0);
      assert [labels[0]] + labels[1..] == labels;
    }
  }

  lemma DisplayFits(labels: seq<Label>)
    requires WireLength(labels) <= MAX_WIRE_NAME
    ensures |DisplayText(labels)| + 1 < MAX_NAME
  {
    if labels != [] { JoinLength(labels); }
  }

  /** Decoding a spelled name: its text if the expanded length is at most 255, a refusal otherwise. */
  lemma SpelledNameDecodes(packet: seq<byte>, offset: nat, e: Expansion, labels: seq<Label>, end: nat, jumps: nat)
    requires Spells(packet, offset, e, labels, end, jumps) && jumps <= MAX_POINTER_JUMPS
    ensures WireLength(labels) <= MAX_WIRE_NAME ==>
      NameAt(packet, offset) == Success((CString(DisplayText(labels)), end))
    ensures WireLength(labels) > MAX_WIRE_NAME ==> NameAt(packet, offset).Failure?
  {
    if WireLength(labels) <= MAX_WIRE_NAME {
      DisplayFits(labels);
      DecodeComplete(packet, offset, MAX_NAME, e);
    } else if DecodeName(packet, offset, MAX_NAME).Decoded? {
      var decoded := DecodeName(packet, offset, MAX_NAME);
      DecodeIff(packet, offset, MAX_NAME, decoded.text, decoded.next);
      var f :| ExpandsTo(packet, offset, MAX_NAME, f, decoded.text, decoded.next);
      ExpansionUnique(packet, offset, e, f);
    }
  }

  /** Encode then decode: every valid dotted name comes back without its optional trailing dot, whatever surrounds
      it. */
  lemma NameRoundTrip(before: seq<byte>, name: seq<byte>, after: seq<byte>, capacity: nat)
    requires NameValid(name) && MAX_NAME <= capacity
    ensures WireLength(Labels(name)) <= 255
    ensures DecodeName(before + EncodeName(Labels(name)) + after, |before|, capacity)
         == Decoded(if name == [DOT] then name else WithoutTrailingDot(name), |before| + WireLength(Labels(name)))
  {
    var labels := Labels(name);
    var packet := before + EncodeName(labels) + after;
    assert At(packet, |before|, EncodeName(labels));
    SpellsLabels(packet, |before|, labels);
    LabelsText(name);
    DisplayFits(labels);
    DecodeComplete(packet, |before|, capacity, Literals(|labels|, Root));
  }

  // ---------- Fields ----------

  lemma ReadsU16(packet: seq<byte>, size: nat, offset: nat, value: u16)
    requires At(packet, offset, U16(value)) && offset + 2 <= size <= |packet|
    ensures ReadU16(packet, size, offset) == Success(value)
  {
    AtByte(packet, offset, U16(value), 0);
    AtByte(packet, offset, U16(value), 1);
  }

  lemma ReadsU32(packet: seq<byte>, offset: nat, value: u32)
    requires At(packet, offset, U32(value))
    ensures ReadU32(packet, |packet|, offset) == Success(value)
  {
    hide U32, Be32, At;
    AtByte(packet, offset, U32(value), 0);
    AtByte(packet, offset, U32(value), 1);
    AtByte(packet, offset, U32(value), 2);
    AtByte(packet, offset, U32(value), 3);
    Recomposes(value);
    AtEnds(packet, offset, U32(value));
  }

  lemma AtEnds(packet: seq<byte>, offset: nat, bytes: seq<byte>)
    requires At(packet, offset, bytes)
    ensures offset + |bytes| <= |packet|
  {
  }

  lemma Recomposes(value: u32)
    ensures var b := U32(value); Be32(b[0], b[1], b[2], b[3]) == value
  {
    HighByte(value);
    LowHalf(value / 0x1_0000, value % 0x1_0000);
  }

  lemma HighByte(value: u32)
    ensures value / 0x100_0000 == value / 0x1_0000 / 256
  {
  }

  lemma LowHalf(high: nat, low: nat)
    requires low < 0x1_0000
    ensures var value := high * 0x1_0000 + low; value / 256 % 256 == low / 256 && value % 256 == low % 256
  {
    assert high * 0x1_0000 + low == 256 * (high * 256 + low / 256) + low % 256;
    assert (high * 0x1_0000 + low) / 256 == high * 256 + low / 256;
  }

  /** The fixed fields after an owner of `ownerLength` bytes, and `length` bytes of data after them. */
  ghost predicate HasFields(p: seq<byte>, at: nat, ownerLength: nat, rtype: u16, class_: u16, ttl: u32, length: u16) {
    && at + ownerLength + 10 + length <= |p|
    && ReadU16(p, |p|, at + ownerLength) == Success(rtype)
    && ReadU16(p, |p|, at + ownerLength + 2) == Success(class_)
    && ReadU32(p, |p|, at + ownerLength + 4) == Success(ttl)
    && ReadU16(p, |p|, at + ownerLength + 8) == Success(length)
  }

  /** The fixed fields of an encoded record read back. */
  lemma RecordFields(p: seq<byte>, at: nat, owner: seq<byte>, rtype: u16, class_: u16, ttl: u32, rdata: seq<byte>)
    requires |rdata| <= 0xffff && At(p, at, RecordBytes(owner, rtype, class_, ttl, rdata))
    ensures At(p, at, owner) && At(p, at + |owner| + 10, rdata)
    ensures HasFields(p, at, |owner|, rtype, class_, ttl, |rdata|)
  {
    hide At, U16, U32, ReadU16, ReadU32;
    var fields := at + |owner|;
    AtSplit(p, at, owner + RecordHeader(rtype, class_, ttl) + U16(|rdata|), rdata);
    AtSplit(p, at, owner + RecordHeader(rtype, class_, ttl), U16(|rdata|));
    AtSplit(p, at, owner, RecordHeader(rtype, class_, ttl));
    AtSplit(p, fields, U16(rtype) + U16(class_), U32(ttl));
    AtSplit(p, fields, U16(rtype), U16(class_));
    ReadsU16(p, |p|, fields, rtype);
    ReadsU16(p, |p|, fields + 2, class_);
    ReadsU32(p, fields + 4, ttl);
    ReadsU16(p, |p|, fields + 8, |rdata|);
  }

  lemma FieldsParse(p: seq<byte>, at: nat, ownerLength: nat, text: seq<byte>, section: Section,
                    rtype: u16, class_: u16, ttl: u32, length: u16)
    requires HasFields(p, at, ownerLength, rtype, class_, ttl, length)
    ensures var start := at + ownerLength + 10;
            match ParseData(p, rtype, start, start + length)
            case Failure(_) => ParseFields(p, text, at + ownerLength, section).Failure?
            case Success(rdata) =>
              ParseFields(p, text, at + ownerLength, section)
              == Success((Record(text, section, rtype, WithoutFlush(class_), class_ >= CACHE_FLUSH, ttl, length, rdata),
                          start + length))
  {
  }

  /** A record whose owner and data are read parses to them. */
  lemma RecordParses(p: seq<byte>, at: nat, ownerLength: nat, text: seq<byte>, section: Section,
                     rtype: u16, class_: u16, ttl: u32, length: u16, rdata: RData)
    requires HasFields(p, at, ownerLength, rtype, class_, ttl, length)
    requires NameAt(p, at) == Success((text, at + ownerLength))
    requires ParseData(p, rtype, at + ownerLength + 10, at + ownerLength + 10 + length) == Success(rdata)
    ensures ParseRecord(p, at, section)
         == Success((Record(text, section, rtype, WithoutFlush(class_), class_ >= CACHE_FLUSH, ttl, length, rdata),
                     at + ownerLength + 10 + length))
  {
    FieldsParse(p, at, ownerLength, text, section, rtype, class_, ttl, length);
  }

  lemma RecordFails(p: seq<byte>, at: nat, ownerLength: nat, text: seq<byte>, section: Section,
                    rtype: u16, class_: u16, ttl: u32, length: u16)
    requires HasFields(p, at, ownerLength, rtype, class_, ttl, length)
    requires NameAt(p, at) == Success((text, at + ownerLength))
    requires ParseData(p, rtype, at + ownerLength + 10, at + ownerLength + 10 + length).Failure?
    ensures ParseRecord(p, at, section).Failure?
  {
    FieldsParse(p, at, ownerLength, text, section, rtype, class_, ttl, length);
  }

  lemma PtrDataParses(p: seq<byte>, start: nat, end: nat, target: seq<byte>)
    requires start <= end <= |p|
    ensures NameAt(p, start) == Success((target, end)) ==> ParseData(p, TYPE_PTR, start, end) == Success(Ptr(target))
    ensures NameAt(p, start).Failure? ==> ParseData(p, TYPE_PTR, start, end).Failure?
  {
  }

  lemma SrvDataParses(p: seq<byte>, start: nat, end: nat, port: u16, target: seq<byte>)
    requires start + 7 <= end <= |p|
    requires ReadU16(p, end, start) == Success(0) && ReadU16(p, end, start + 2) == Success(0)
    requires ReadU16(p, end, start + 4) == Success(port)
    ensures NameAt(p, start + 6) == Success((target, end)) ==>
      ParseData(p, TYPE_SRV, start, end) == Success(Srv(0, 0, port, target))
    ensures NameAt(p, start + 6).Failure? ==> ParseData(p, TYPE_SRV, start, end).Failure?
  {
  }

  lemma TxtDataParses(p: seq<byte>, start: nat, bytes: seq<byte>, strings: seq<seq<byte>>)
    requires TxtStrings(bytes) == Some(strings) && At(p, start, bytes)
    ensures |bytes| <= MAX_TXT_BYTES ==>
      ParseData(p, TYPE_TXT, start, start + |bytes|) == Success(Txt(bytes, |strings|))
    ensures |bytes| > MAX_TXT_BYTES ==> ParseData(p, TYPE_TXT, start, start + |bytes|).Failure?
  {
  }

  // ---------- A response over labels ----------

  ghost function InstanceLabels(r: Response): seq<Label> {
    [r.instance] + r.labels
  }

  ghost function HostLabels(r: Response, domain: seq<Label>): seq<Label> {
    [r.host] + domain
  }

  /** Where everything is in a response. */
  ghost predicate IsResponse(p: seq<byte>, r: Response)
    requires r.Ok()
  {
    && At(p, 0, r.Header()) && At(p, HEADER_SIZE, r.PtrRecord())
    && At(p, r.SrvAt(), r.SrvRecord()) && At(p, r.TxtAt(), r.TxtRecord()) && At(p, r.AddressAt(), r.ARecord())
    && |p| == r.Size()
  }

  lemma ResponseParts(r: Response)
    requires r.Ok()
    ensures IsResponse(r.Bytes(), r)
  {
    var p := r.Bytes();
    assert At(p, 0, p);
    AtSplit(p, 0, r.Header() + r.PtrRecord() + r.SrvRecord() + r.TxtRecord(), r.ARecord());
    AtSplit(p, 0, r.Header() + r.PtrRecord() + r.SrvRecord(), r.TxtRecord());
    AtSplit(p, 0, r.Header() + r.PtrRecord(), r.SrvRecord());
    AtSplit(p, 0, r.Header(), r.PtrRecord());
  }

  lemma PtrFields(p: seq<byte>, r: Response)
    requires r.Ok() && IsResponse(p, r)
    ensures HasFields(p, HEADER_SIZE, WireLength(r.labels), TYPE_PTR, CLASS_IN, r.ttl, |r.instance| + 3)
    ensures At(p, HEADER_SIZE, EncodeName(r.labels))
    ensures At(p, r.InstanceAt(), LengthPrefixed(r.instance))
    ensures At(p, r.InstanceAt() + 1 + |r.instance|, PointerBytes(HEADER_SIZE))
  {
    hide At, EncodeName, LengthPrefixed, PointerBytes, U16, U32, ReadU16, ReadU32, BodyLength, LabelsOk, HasFields;
    RecordFields(p, HEADER_SIZE, EncodeName(r.labels), TYPE_PTR, CLASS_IN, r.ttl, r.PtrData());
    AtSplit(p, r.InstanceAt(), LengthPrefixed(r.instance), PointerBytes(HEADER_SIZE));
  }

  lemma SrvFields(p: seq<byte>, r: Response)
    requires r.Ok() && IsResponse(p, r)
    ensures HasFields(p, r.SrvAt(), 2, TYPE_SRV, r.class_, r.ttl, |r.host| + 9)
    ensures At(p, r.SrvAt(), PointerBytes(r.InstanceAt())) && At(p, r.HostAt() - 6, r.SrvData())
  {
    RecordFields(p, r.SrvAt(), PointerBytes(r.InstanceAt()), TYPE_SRV, r.class_, r.ttl, r.SrvData());
  }

  lemma SrvPieces(p: seq<byte>, r: Response)
    requires r.Ok() && At(p, r.HostAt() - 6, r.SrvData())
    ensures r.TxtAt() <= |p|
    ensures ReadU16(p, r.TxtAt(), r.HostAt() - 6) == Success(0) && ReadU16(p, r.TxtAt(), r.HostAt() - 4) == Success(0)
    ensures ReadU16(p, r.TxtAt(), r.HostAt() - 2) == Success(r.port)
    ensures At(p, r.HostAt(), LengthPrefixed(r.host)) && At(p, r.HostAt() + 1 + |r.host|, PointerBytes(r.DomainAt()))
  {
    hide At, LengthPrefixed, U16, ReadU16, TxtLength, BodyLength, LabelsOk;
    var start := r.HostAt() - 6;
    AtSplit(p, start, U16(0) + U16(0) + U16(r.port) + LengthPrefixed(r.host), PointerBytes(r.DomainAt()));
    AtSplit(p, start, U16(0) + U16(0) + U16(r.port), LengthPrefixed(r.host));
    AtSplit(p, start, U16(0) + U16(0), U16(r.port));
    AtSplit(p, start, U16(0), U16(0));
    ReadsU16(p, r.TxtAt(), start, 0);
    ReadsU16(p, r.TxtAt(), start + 2, 0);
    ReadsU16(p, r.TxtAt(), start + 4, r.port);
  }

  lemma TxtFields(p: seq<byte>, r: Response)
    requires r.Ok() && IsResponse(p, r)
    ensures |TxtBytes(r.txt)| == TxtLength(r.txt)
    ensures HasFields(p, r.TxtAt(), 2, TYPE_TXT, r.class_, r.ttl, TxtLength(r.txt))
    ensures At(p, r.TxtAt(), PointerBytes(r.InstanceAt())) && At(p, r.TxtAt() + 12, TxtBytes(r.txt))
  {
    TxtBytesLength(r.txt);
    RecordFields(p, r.TxtAt(), PointerBytes(r.InstanceAt()), TYPE_TXT, r.class_, r.ttl, TxtBytes(r.txt));
  }

  lemma AFields(p: seq<byte>, r: Response)
    requires r.Ok() && IsResponse(p, r)
    ensures HasFields(p, r.AddressAt(), 2, TYPE_A, r.class_, r.ttl, 4)
    ensures At(p, r.AddressAt(), PointerBytes(r.HostAt())) && At(p, r.AddressAt() + 12, r.ipv4)
  {
    RecordFields(p, r.AddressAt(), PointerBytes(r.HostAt()), TYPE_A, r.class_, r.ttl, r.ipv4);
  }

  /** The computed domain offset lands exactly on the domain's labels inside the encoded service name. */
  lemma DomainSpelled(p: seq<byte>, r: Response, front: seq<Label>, domain: seq<Label>)
    requires r.Ok() && IsResponse(p, r) && r.labels == front + domain && r.prefix == BodyLength(front)
    ensures LabelsOk(domain)
    ensures Spells(p, r.DomainAt(), Literals(|domain|, Root), domain, HEADER_SIZE + WireLength(r.labels), 0)
  {
    hide At, IsResponse, Spells, Split, EncodeLabels, LabelsOk, BodyLength;
    PtrFields(p, r);
    LabelsOkConcat(front, domain);
    EncodeLabelsConcat(front, domain);
    BodyLengthConcat(front, domain);
    assert EncodeName(r.labels) == EncodeLabels(front) + EncodeName(domain);
    AtSplit(p, HEADER_SIZE, EncodeLabels(front), EncodeName(domain));
    SpellsLabels(p, r.DomainAt(), domain);
  }

  lemma InstanceSpelled(p: seq<byte>, r: Response) returns (e: Expansion)
    requires r.Ok() && IsResponse(p, r)
    ensures Spells(p, r.InstanceAt(), e, InstanceLabels(r), r.SrvAt(), 1)
  {
    hide IsResponse, At, Spells, EncodeLabels, LabelsOk, BodyLength, HasFields;
    var name, n := Literals(|r.labels|, Root), |r.instance|;
    PtrFields(p, r);
    SpellsLabels(p, HEADER_SIZE, r.labels);
    SpellsPointer(p, r.InstanceAt() + 1 + n, HEADER_SIZE, name, r.labels, HEADER_SIZE + WireLength(r.labels), 0);
    SpellsLabel(p, r.InstanceAt(), r.instance, Pointer(name), r.labels, r.SrvAt(), 1);
    e := Literal(Pointer(name));
  }

  lemma HostSpelled(p: seq<byte>, r: Response, front: seq<Label>, domain: seq<Label>) returns (e: Expansion)
    requires r.Ok() && IsResponse(p, r) && r.labels == front + domain && r.prefix == BodyLength(front)
    ensures Spells(p, r.HostAt(), e, HostLabels(r, domain), r.TxtAt(), 1)
  {
    hide IsResponse;
    var name, n := Literals(|domain|, Root), |r.host|;
    SrvFields(p, r);
    SrvPieces(p, r);
    DomainSpelled(p, r, front, domain);
    SpellsPointer(p, r.HostAt() + 1 + n, r.DomainAt(), name, domain, HEADER_SIZE + WireLength(r.labels), 0);
    SpellsLabel(p, r.HostAt(), r.host, Pointer(name), domain, r.TxtAt(), 1);
    e := Literal(Pointer(name));
  }

  // ---------- What the parser reads ----------

  /** The text of a label sequence, as a reader of a C string sees it. */
  function ReadText(labels: seq<Label>): seq<byte> {
    CString(DisplayText(labels))
  }

  /** A compressed name of `length` expanded bytes reads as `text`, or is refused when it expands too far. */
  ghost predicate ReadsAs(p: seq<byte>, at: nat, length: nat, text: seq<byte>, end: nat) {
    if length <= MAX_WIRE_NAME then NameAt(p, at) == Success((text, end)) else NameAt(p, at).Failure?
  }

  lemma SpelledReads(p: seq<byte>, at: nat, e: Expansion, labels: seq<Label>, end: nat, jumps: nat)
    requires Spells(p, at, e, labels, end, jumps) && jumps <= MAX_POINTER_JUMPS
    ensures ReadsAs(p, at, WireLength(labels), ReadText(labels), end)
  {
    SpelledNameDecodes(p, at, e, labels, end, jumps);
  }

  lemma ServiceReads(p: seq<byte>, r: Response)
    requires r.Ok() && IsResponse(p, r)
    ensures ReadsAs(p, HEADER_SIZE, WireLength(r.labels), ReadText(r.labels), HEADER_SIZE + WireLength(r.labels))
  {
    hide At, IsResponse, NameAt, CString, Join, Spells;
    PtrFields(p, r);
    SpellsLabels(p, HEADER_SIZE, r.labels);
    SpelledReads(p, HEADER_SIZE, Literals(|r.labels|, Root), r.labels, HEADER_SIZE + WireLength(r.labels), 0);
  }

  lemma InstanceReads(p: seq<byte>, r: Response)
    requires r.Ok() && IsResponse(p, r)
    ensures ReadsAs(p, r.InstanceAt(), WireLength(InstanceLabels(r)), ReadText(InstanceLabels(r)), r.SrvAt())
  {
    var e := InstanceSpelled(p, r);
    SpelledReads(p, r.InstanceAt(), e, InstanceLabels(r), r.SrvAt(), 1);
  }

  /** The owner of SRV and TXT: a pointer to the instance name. */
  lemma InstanceOwnerReads(p: seq<byte>, r: Response, at: nat)
    requires r.Ok() && IsResponse(p, r) && At(p, at, PointerBytes(r.InstanceAt()))
    ensures ReadsAs(p, at, WireLength(InstanceLabels(r)), ReadText(InstanceLabels(r)), at + 2)
  {
    var e := InstanceSpelled(p, r);
    SpellsPointer(p, at, r.InstanceAt(), e, InstanceLabels(r), r.SrvAt(), 1);
    SpelledReads(p, at, Pointer(e), InstanceLabels(r), at + 2, 2);
  }

  lemma HostReads(p: seq<byte>, r: Response, front: seq<Label>, domain: seq<Label>)
    requires r.Ok() && IsResponse(p, r) && r.labels == front + domain && r.prefix == BodyLength(front)
    ensures var labels := HostLabels(r, domain);
            && ReadsAs(p, r.HostAt(), WireLength(labels), ReadText(labels), r.TxtAt())
            && ReadsAs(p, r.AddressAt(), WireLength(labels), ReadText(labels), r.AddressAt() + 2)
  {
    var e := HostSpelled(p, r, front, domain);
    SpelledReads(p, r.HostAt(), e, HostLabels(r, domain), r.TxtAt(), 1);
    AFields(p, r);
    SpellsPointer(p, r.AddressAt(), r.HostAt(), e, HostLabels(r, domain), r.TxtAt(), 1);
    SpelledReads(p, r.AddressAt(), Pointer(e), HostLabels(r, domain), r.AddressAt() + 2, 2);
  }

  // ---------- The four records ----------

  /** The names behind a response: their texts and their expanded lengths. */
  datatype Names = Names(service: seq<byte>, instance: seq<byte>, host: seq<byte>,
                         serviceLength: nat, instanceLength: nat, hostLength: nat)

  ghost function NamesOf(r: Response, domain: seq<Label>): Names {
    Names(ReadText(r.labels), ReadText(InstanceLabels(r)), ReadText(HostLabels(r, domain)),
          WireLength(r.labels), WireLength(InstanceLabels(r)), WireLength(HostLabels(r, domain)))
  }

  /** The limits of a response. */
  predicate WithinReach(r: Response, n: Names) {
    n.instanceLength <= MAX_WIRE_NAME && n.hostLength <= MAX_WIRE_NAME && TxtLength(r.txt) <= MAX_TXT_BYTES
  }

  function MakeRecord(owner: seq<byte>, section: Section, rtype: u16, class_: u16, ttl: u32, length: u16,
                      data: RData): Record {
    Record(owner, section, rtype, WithoutFlush(class_), class_ >= CACHE_FLUSH, ttl, length, data)
  }

  function PtrRead(r: Response, n: Names): Record
    requires r.Ok()
  {
    MakeRecord(n.service, Answer, TYPE_PTR, CLASS_IN, r.ttl, |r.instance| + 3, Ptr(n.instance))
  }

  function SrvRead(r: Response, n: Names): Record
    requires r.Ok()
  {
    MakeRecord(n.instance, Additional, TYPE_SRV, r.class_, r.ttl, |r.host| + 9, Srv(0, 0, r.port, n.host))
  }

  function TxtRead(r: Response, n: Names): Record
    requires r.Ok()
  {
    MakeRecord(n.instance, Additional, TYPE_TXT, r.class_, r.ttl, TxtLength(r.txt), Txt(TxtBytes(r.txt), |r.txt|))
  }

  function ARead(r: Response, n: Names): Record
    requires r.Ok()
  {
    MakeRecord(n.host, Additional, TYPE_A, r.class_, r.ttl, 4, A(r.ipv4))
  }

  lemma PtrParses(p: seq<byte>, r: Response, n: Names)
    requires r.Ok() && n.serviceLength == WireLength(r.labels)
    requires HasFields(p, HEADER_SIZE, n.serviceLength, TYPE_PTR, CLASS_IN, r.ttl, |r.instance| + 3)
    requires NameAt(p, HEADER_SIZE) == Success((n.service, HEADER_SIZE + n.serviceLength))
    requires ReadsAs(p, r.InstanceAt(), n.instanceLength, n.instance, r.SrvAt())
    ensures n.instanceLength <= MAX_WIRE_NAME ==>
      ParseRecord(p, HEADER_SIZE, Answer) == Success((PtrRead(r, n), r.SrvAt()))
    ensures n.instanceLength > MAX_WIRE_NAME ==> ParseRecord(p, HEADER_SIZE, Answer).Failure?
  {
    hide NameAt, ParseRecord, ParseData;
    PtrDataParses(p, r.InstanceAt(), r.SrvAt(), n.instance);
    if n.instanceLength <= MAX_WIRE_NAME {
      RecordParses(p, HEADER_SIZE, n.serviceLength, n.service, Answer, TYPE_PTR, CLASS_IN, r.ttl, |r.instance| + 3,
                   Ptr(n.instance));
    } else {
      RecordFails(p, HEADER_SIZE, n.serviceLength, n.service, Answer, TYPE_PTR, CLASS_IN, r.ttl, |r.instance| + 3);
    }
  }

  lemma SrvParses(p: seq<byte>, r: Response, n: Names)
    requires r.Ok() && r.TxtAt() <= |p|
    requires HasFields(p, r.SrvAt(), 2, TYPE_SRV, r.class_, r.ttl, |r.host| + 9)
    requires NameAt(p, r.SrvAt()) == Success((n.instance, r.SrvAt() + 2))
    requires ReadU16(p, r.TxtAt(), r.HostAt() - 6) == Success(0) && ReadU16(p, r.TxtAt(), r.HostAt() - 4) == Success(0)
    requires ReadU16(p, r.TxtAt(), r.HostAt() - 2) == Success(r.port)
    requires ReadsAs(p, r.HostAt(), n.hostLength, n.host, r.TxtAt())
    ensures n.hostLength <= MAX_WIRE_NAME ==>
      ParseRecord(p, r.SrvAt(), Additional) == Success((SrvRead(r, n), r.TxtAt()))
    ensures n.hostLength > MAX_WIRE_NAME ==> ParseRecord(p, r.SrvAt(), Additional).Failure?
  {
    hide NameAt, ParseRecord, ParseData, HasFields;
    SrvDataParses(p, r.HostAt() - 6, r.TxtAt(), r.port, n.host);
    if n.hostLength <= MAX_WIRE_NAME {
      RecordParses(p, r.SrvAt(), 2, n.instance, Additional, TYPE_SRV, r.class_, r.ttl, |r.host| + 9,
                   Srv(0, 0, r.port, n.host));
    } else {
      RecordFails(p, r.SrvAt(), 2, n.instance, Additional, TYPE_SRV, r.class_, r.ttl, |r.host| + 9);
    }
  }

  lemma TxtParses(p: seq<byte>, r: Response, n: Names)
    requires r.Ok() && HasFields(p, r.TxtAt(), 2, TYPE_TXT, r.class_, r.ttl, TxtLength(r.txt))
    requires NameAt(p, r.TxtAt()) == Success((n.instance, r.TxtAt() + 2))
    requires var rdata := ParseData(p, TYPE_TXT, r.TxtAt() + 12, r.AddressAt());
             if TxtLength(r.txt) <= MAX_TXT_BYTES then rdata == Success(Txt(TxtBytes(r.txt), |r.txt|))
             else rdata.Failure?
    ensures TxtLength(r.txt) <= MAX_TXT_BYTES ==>
      ParseRecord(p, r.TxtAt(), Additional) == Success((TxtRead(r, n), r.AddressAt()))
    ensures TxtLength(r.txt) > MAX_TXT_BYTES ==> ParseRecord(p, r.TxtAt(), Additional).Failure?
  {
    hide NameAt, ParseRecord, ParseData, HasFields;
    var length := TxtLength(r.txt);
    if length <= MAX_TXT_BYTES {
      RecordParses(p, r.TxtAt(), 2, n.instance, Additional, TYPE_TXT, r.class_, r.ttl, length,
                   Txt(TxtBytes(r.txt), |r.txt|));
    } else {
      RecordFails(p, r.TxtAt(), 2, n.instance, Additional, TYPE_TXT, r.class_, r.ttl, length);
    }
  }

  lemma AParses(p: seq<byte>, r: Response, n: Names)
    requires r.Ok() && HasFields(p, r.AddressAt(), 2, TYPE_A, r.class_, r.ttl, 4)
    requires NameAt(p, r.AddressAt()) == Success((n.host, r.AddressAt() + 2)) && At(p, r.AddressAt() + 12, r.ipv4)
    ensures ParseRecord(p, r.AddressAt(), Additional) == Success((ARead(r, n), r.Size()))
  {
    RecordParses(p, r.AddressAt(), 2, n.host, Additional, TYPE_A, r.class_, r.ttl, 4, A(r.ipv4));
  }

  // The records of a response, each read back or refused on its own limit.

  lemma PtrReadBack(p: seq<byte>, r: Response, domain: seq<Label>)
    requires r.Ok() && IsResponse(p, r)
    ensures var n := NamesOf(r, domain);
            && (n.instanceLength <= MAX_WIRE_NAME ==>
                  ParseRecord(p, HEADER_SIZE, Answer) == Success((PtrRead(r, n), r.SrvAt())))
            && (n.instanceLength > MAX_WIRE_NAME ==> ParseRecord(p, HEADER_SIZE, Answer).Failure?)
  {
    hide NameAt, ParseRecord, ParseData, HasFields, IsResponse;
    PtrFields(p, r);
    ServiceReads(p, r);
    InstanceReads(p, r);
    PtrParses(p, r, NamesOf(r, domain));
  }

  lemma SrvReadBack(p: seq<byte>, r: Response, front: seq<Label>, domain: seq<Label>)
    requires r.Ok() && IsResponse(p, r) && r.labels == front + domain && r.prefix == BodyLength(front)
    requires WireLength(InstanceLabels(r)) <= MAX_WIRE_NAME
    ensures var n := NamesOf(r, domain);
            && (n.hostLength <= MAX_WIRE_NAME ==>
                  ParseRecord(p, r.SrvAt(), Additional) == Success((SrvRead(r, n), r.TxtAt())))
            && (n.hostLength > MAX_WIRE_NAME ==> ParseRecord(p, r.SrvAt(), Additional).Failure?)
  {
    hide NameAt, ParseRecord, ParseData, HasFields, IsResponse;
    SrvFields(p, r);
    SrvPieces(p, r);
    InstanceOwnerReads(p, r, r.SrvAt());
    HostReads(p, r, front, domain);
    SrvParses(p, r, NamesOf(r, domain));
  }

  lemma TxtReadBack(p: seq<byte>, r: Response, domain: seq<Label>)
    requires r.Ok() && IsResponse(p, r) && WireLength(InstanceLabels(r)) <= MAX_WIRE_NAME
    ensures var n := NamesOf(r, domain);
            && (TxtLength(r.txt) <= MAX_TXT_BYTES ==>
                  ParseRecord(p, r.TxtAt(), Additional) == Success((TxtRead(r, n), r.AddressAt())))
            && (TxtLength(r.txt) > MAX_TXT_BYTES ==> ParseRecord(p, r.TxtAt(), Additional).Failure?)
  {
    hide NameAt, ParseRecord, ParseData, HasFields, IsResponse, TxtStrings, TxtBytes, TxtLength, LabelsOk;
    TxtFields(p, r);
    InstanceOwnerReads(p, r, r.TxtAt());
    TxtStringsComplete(r.txt);
    TxtDataParses(p, r.TxtAt() + 12, TxtBytes(r.txt), r.txt);
    TxtParses(p, r, NamesOf(r, domain));
  }

  lemma AReadBack(p: seq<byte>, r: Response, front: seq<Label>, domain: seq<Label>)
    requires r.Ok() && IsResponse(p, r) && r.labels == front + domain && r.prefix == BodyLength(front)
    requires WireLength(HostLabels(r, domain)) <= MAX_WIRE_NAME
    ensures ParseRecord(p, r.AddressAt(), Additional) == Success((ARead(r, NamesOf(r, domain)), r.Size()))
  {
    hide NameAt, ParseRecord, ParseData, HasFields, IsResponse;
    AFields(p, r);
    HostReads(p, r, front, domain);
    AParses(p, r, NamesOf(r, domain));
  }

  lemma HeaderReads(p: seq<byte>, id: u16, flags: u16, questions: u16, answers: u16, authorities: u16, additionals: u16)
    requires At(p, 0, U16(id) + U16(flags) + U16(questions) + U16(answers) + U16(authorities) + U16(additionals))
    ensures |p| >= HEADER_SIZE && HeaderOf(p) == Header(id, flags, questions, answers, authorities, additionals)
  {
    AtSplit(p, 0, U16(id) + U16(flags) + U16(questions) + U16(answers) + U16(authorities), U16(additionals));
    AtSplit(p, 0, U16(id) + U16(flags) + U16(questions) + U16(answers), U16(authorities));
    AtSplit(p, 0, U16(id) + U16(flags) + U16(questions), U16(answers));
    AtSplit(p, 0, U16(id) + U16(flags), U16(questions));
    AtSplit(p, 0, U16(id), U16(flags));
    ReadsU16(p, |p|, 0, id);
    ReadsU16(p, |p|, 2, flags);
    ReadsU16(p, |p|, 4, questions);
    ReadsU16(p, |p|, 6, answers);
    ReadsU16(p, |p|, 8, authorities);
    ReadsU16(p, |p|, 10, additionals);
  }

  /** One answer and three additional records: the packet parses exactly when all four do. */
  lemma FourRecordsParse(p: seq<byte>, flags: u16, r: seq<Record>, o1: nat, o2: nat, o3: nat, end: nat)
    requires |p| >= HEADER_SIZE && HeaderOf(p) == Header(0, flags, 0, 1, 0, 3) && |r| == 4
    requires ParseRecord(p, HEADER_SIZE, Answer) == Success((r[0], o1))
    requires ParseRecord(p, o1, Additional) == Success((r[1], o2))
    requires ParseRecord(p, o2, Additional) == Success((r[2], o3))
    requires ParseRecord(p, o3, Additional) == Success((r[3], end))
    ensures ParseAll(p) == Success((Packet(HeaderOf(p), [], r), end))
  {
    hide ParseRecord;
    assert ParseRecords(p, HEADER_SIZE, 1, Answer, []) == ParseRecords(p, o1, 0, Answer, [] + [r[0]]);
    assert ParseRecords(p, o3, 1, Additional, [r[0], r[1], r[2]])
         == ParseRecords(p, end, 0, Additional, [r[0], r[1], r[2]] + [r[3]]);
    assert [r[0], r[1], r[2]] + [r[3]] == r;
    assert ParseRecords(p, o2, 2, Additional, [r[0], r[1]])
         == ParseRecords(p, o3, 1, Additional, [r[0], r[1]] + [r[2]]);
    assert [r[0], r[1]] + [r[2]] == [r[0], r[1], r[2]];
    assert ParseRecords(p, o1, 3, Additional, [r[0]]) == ParseRecords(p, o2, 2, Additional, [r[0]] + [r[1]]);
    assert [r[0]] + [r[1]] == [r[0], r[1]];
    assert [] + [r[0]] == [r[0]];
  }

  /** A refused record refuses the packet: the answer, or the first or second additional record. */
  lemma AnyRecordFails(p: seq<byte>, flags: u16, o1: nat, o2: nat)
    requires |p| >= HEADER_SIZE && HeaderOf(p) == Header(0, flags, 0, 1, 0, 3)
    requires var first := ParseRecord(p, HEADER_SIZE, Answer);
             || first.Failure?
             || (first.value.1 == o1
                 && var second := ParseRecord(p, o1, Additional);
                    second.Failure? || (second.value.1 == o2 && ParseRecord(p, o2, Additional).Failure?))
    ensures ParseAll(p).Failure?
  {
    hide ParseRecord;
    var first := ParseRecord(p, HEADER_SIZE, Answer);
    if first.Success? {
      var a := [] + [first.value.0];
      assert ParseRecords(p, HEADER_SIZE, 1, Answer, []) == ParseRecords(p, o1, 0, Answer, a);
      var second := ParseRecord(p, o1, Additional);
      if second.Success? {
        assert ParseRecords(p, o2, 2, Additional, a + [second.value.0]).Failure?;
        assert ParseRecords(p, o1, 3, Additional, a) == ParseRecords(p, o2, 2, Additional, a + [second.value.0]);
      }
    }
  }

  /** The response over labels: read back exactly, or refused exactly when a limit is passed. */
  lemma ResponseRoundTrip(p: seq<byte>, r: Response, front: seq<Label>, domain: seq<Label>)
    requires r.Ok() && IsResponse(p, r) && r.labels == front + domain && r.prefix == BodyLength(front)
    ensures var n := NamesOf(r, domain);
            && (ParseAll(p).Success? <==> WithinReach(r, n))
            && (WithinReach(r, n) ==>
                  ParseAll(p) == Success((Packet(Header(0, r.flags, 0, 1, 0, 3), [],
                                                 [PtrRead(r, n), SrvRead(r, n), TxtRead(r, n), ARead(r, n)]),
                                          r.Size())))
  {
    hide ParseRecord, ParseAll, PtrRead, SrvRead, TxtRead, ARead;
    var n := NamesOf(r, domain);
    HeaderReads(p, 0, r.flags, 0, 1, 0, 3);
    PtrReadBack(p, r, domain);
    if n.instanceLength <= MAX_WIRE_NAME {
      SrvReadBack(p, r, front, domain);
      TxtReadBack(p, r, domain);
    }
    if WithinReach(r, n) {
      AReadBack(p, r, front, domain);
      FourRecordsParse(p, r.flags, [PtrRead(r, n), SrvRead(r, n), TxtRead(r, n), ARead(r, n)],
                       r.SrvAt(), r.TxtAt(), r.AddressAt(), r.Size());
    } else {
      AnyRecordFails(p, r.flags, r.SrvAt(), r.TxtAt());
    }
  }

  // ---------- The service response ----------

  /** C strings hold no zero byte. */
  predicate Terminated(s: Service) {
    NulFree(s.serviceType) && NulFree(s.domain) && NulFree(s.instance) && NulFree(s.host)
  }

  function InstanceText(s: Service): seq<byte>
    requires ServiceValid(s)
  {
    s.instance + [DOT] + ServiceName(s)
  }

  function HostText(s: Service): seq<byte> {
    s.host + [DOT] + StripTrailingDots(StripLeadingDots(s.domain))
  }

  /** The response's limits, as a caller can compute them before building. */
  predicate Parseable(s: Service)
    requires Buildable(s)
  {
    && 1 + |s.instance| + WireLength(Labels(ServiceName(s))) <= MAX_WIRE_NAME
    && 1 + |s.host| + WireLength(DomainLabels(s)) <= MAX_WIRE_NAME
    && TxtLength(s.txt) <= MAX_TXT_BYTES
  }

  /** The records a reader should get. */
  function ExpectedRecords(s: Service, o: ResponseOptions): seq<Record>
    requires Buildable(s)
  {
    var ttl := TtlOf(o);
    [Record(ServiceName(s), Answer, TYPE_PTR, CLASS_IN, false, ttl, |s.instance| + 3, Ptr(InstanceText(s))),
     Record(InstanceText(s), Additional, TYPE_SRV, CLASS_IN, o.cacheFlush, ttl, |s.host| + 9,
            Srv(0, 0, s.port, HostText(s))),
     Record(InstanceText(s), Additional, TYPE_TXT, CLASS_IN, o.cacheFlush, ttl, TxtLength(s.txt),
            Txt(TxtBytes(s.txt), |s.txt|)),
     Record(HostText(s), Additional, TYPE_A, CLASS_IN, o.cacheFlush, ttl, 4, A(s.ipv4))]
  }

  lemma {:induction false} StripKeepsNulFree(s: seq<byte>)
    requires NulFree(s)
    ensures NulFree(StripTrailingDots(s)) && NulFree(StripLeadingDots(s))
    decreases |s|
  {
    if s == [] {
    } else {
      if s[|s| - 1] == DOT { StripKeepsNulFree(s[..|s| - 1]); }
      if s[0] == DOT { StripKeepsNulFree(s[1..]); }
    }
  }

  lemma NulFreeJoin(a: seq<byte>, b: seq<byte>)
    requires NulFree(a) && NulFree(b)
    ensures NulFree(a + [DOT] + b) && CString(a + [DOT] + b) == a + [DOT] + b
  {
    CStringOfNulFree(a + [DOT] + b);
  }

  /** The texts a reader sees behind the three names. */
  lemma ServiceTexts(s: Service)
    requires Buildable(s) && Terminated(s)
    ensures ReadText(Labels(ServiceName(s))) == ServiceName(s)
    ensures ReadText([s.instance] + Labels(ServiceName(s))) == InstanceText(s)
    ensures ReadText([s.host] + DomainLabels(s)) == HostText(s)
  {
    ServiceLabels(s);
    var left, right := StripTrailingDots(s.serviceType), StripTrailingDots(StripLeadingDots(s.domain));
    StripKeepsNulFree(s.serviceType);
    StripKeepsNulFree(s.domain);
    StripKeepsNulFree(StripLeadingDots(s.domain));
    NulFreeJoin(left, right);
    NulFreeJoin(s.instance, ServiceName(s));
    NulFreeJoin(s.host, right);
    assert ([s.instance] + Labels(ServiceName(s)))[1..] == Labels(ServiceName(s));
    assert ([s.host] + DomainLabels(s))[1..] == DomainLabels(s);
  }

  lemma ServiceNames(s: Service, o: ResponseOptions)
    requires Buildable(s) && Terminated(s)
    ensures NamesOf(ResponseOf(s, o), DomainLabels(s))
         == Names(ServiceName(s), InstanceText(s), HostText(s), WireLength(Labels(ServiceName(s))),
                  1 + |s.instance| + WireLength(Labels(ServiceName(s))), 1 + |s.host| + WireLength(DomainLabels(s)))
  {
    hide CString, Join, ServiceName, LabelsOk;
    ServiceTexts(s);
    assert ([s.instance] + Labels(ServiceName(s)))[1..] == Labels(ServiceName(s));
    assert ([s.host] + DomainLabels(s))[1..] == DomainLabels(s);
  }

  lemma FlagBits(flush: bool)
    ensures WithoutFlush(UniqueClass(flush)) == CLASS_IN && (UniqueClass(flush) >= CACHE_FLUSH <==> flush)
  {
  }

  lemma ExpectedAreRead(s: Service, o: ResponseOptions, r: Response, n: Names)
    requires Buildable(s) && r == ResponseOf(s, o) && r.Ok()
    requires n.service == ServiceName(s) && n.instance == InstanceText(s) && n.host == HostText(s)
    ensures [PtrRead(r, n), SrvRead(r, n), TxtRead(r, n), ARead(r, n)] == ExpectedRecords(s, o)
  {
    FlagBits(o.cacheFlush);
    FlagBits(false);
  }

  /** The whole response: a reader gets exactly the four records the service describes, and gets the packet at all
      exactly when both compressed names expand to at most 255 bytes and the TXT data has at most 1024. */
  lemma ServiceRoundTrip(s: Service, o: ResponseOptions)
    requires Buildable(s) && Terminated(s)
    ensures ParseAll(ServicePacket(s, o)).Success? <==> Parseable(s)
    ensures Parseable(s) ==>
      ParseAll(ServicePacket(s, o))
      == Success((Packet(Header(0, o.headerFlags, 0, 1, 0, 3), [], ExpectedRecords(s, o)), |ServicePacket(s, o)|))
  {
    hide ParseAll, IsResponse;
    var r, n := ResponseOf(s, o), NamesOf(ResponseOf(s, o), DomainLabels(s));
    ResponseOk(s, o);
    ServiceLabels(s);
    ResponseParts(r);
    ResponseRoundTrip(r.Bytes(), r, Labels(s.serviceType), DomainLabels(s));
    ServiceNames(s, o);
    ExpectedAreRead(s, o, r, n);
  }

  lemma QuestionParses(p: seq<byte>, at: nat, text: seq<byte>, end: nat, qtype: u16, class_: u16)
    requires NameAt(p, at) == Success((text, end)) && end + 4 <= |p|
    requires ReadU16(p, |p|, end) == Success(qtype) && ReadU16(p, |p|, end + 2) == Success(class_)
    ensures ParseQuestion(p, at)
         == Success((Question(text, qtype, WithoutFlush(class_), class_ >= CACHE_FLUSH), end + 4))
  {
    hide NameAt;
  }

  lemma OneQuestionParses(p: seq<byte>, question: Question, end: nat)
    requires |p| >= HEADER_SIZE && HeaderOf(p) == Header(0, 0, 1, 0, 0, 0)
    requires ParseQuestion(p, HEADER_SIZE) == Success((question, end))
    ensures ParseAll(p) == Success((Packet(HeaderOf(p), [question], []), end))
  {
    hide ParseQuestion;
    assert [] + [question] == [question];
    assert ParseQuestions(p, HEADER_SIZE, 1, []) == ParseQuestions(p, end, 0, [question]);
  }

  lemma QueryFields(name: seq<byte>, qtype: u16, unicastResponse: bool)
    requires NameValid(name)
    ensures var bytes, end := QueryBytes(name, qtype, unicastResponse), HEADER_SIZE + WireLength(Labels(name));
            && |bytes| == end + 4 && HeaderOf(bytes) == Header(0, 0, 1, 0, 0, 0)
            && At(bytes, HEADER_SIZE, EncodeName(Labels(name)))
            && ReadU16(bytes, |bytes|, end) == Success(qtype)
            && ReadU16(bytes, |bytes|, end + 2) == Success(UniqueClass(unicastResponse))
  {
    hide ReadU16, HeaderOf, U16;
    var bytes, labels := QueryBytes(name, qtype, unicastResponse), Labels(name);
    var class_ := UniqueClass(unicastResponse);
    var head := U16(0) + U16(0) + U16(1) + U16(0) + U16(0) + U16(0);
    assert At(bytes, 0, head + EncodeName(labels) + U16(qtype) + U16(class_));
    AtSplit(bytes, 0, head + EncodeName(labels) + U16(qtype), U16(class_));
    AtSplit(bytes, 0, head + EncodeName(labels), U16(qtype));
    AtSplit(bytes, 0, head, EncodeName(labels));
    var end := HEADER_SIZE + WireLength(labels);
    ReadsU16(bytes, |bytes|, end, qtype);
    ReadsU16(bytes, |bytes|, end + 2, class_);
    HeaderReads(bytes, 0, 0, 1, 0, 0, 0);
  }

  /** A query read back: one question with the name, type and unicast bit asked for. */
  lemma QueryRoundTrip(name: seq<byte>, qtype: u16, unicastResponse: bool)
    requires NameValid(name) && NulFree(name)
    ensures ParseAll(QueryBytes(name, qtype, unicastResponse))
         == Success((Packet(Header(0, 0, 1, 0, 0, 0),
                            [Question(DisplayText(Labels(name)), qtype, CLASS_IN, unicastResponse)], []),
                     |QueryBytes(name, qtype, unicastResponse)|))
    ensures DisplayText(Labels(name)) == if name == [DOT] then name else WithoutTrailingDot(name)
  {
    hide NameAt, ParseQuestion, ParseAll, QueryBytes, EncodeName, Split, Join, CString, BodyLength;
    var bytes, labels := QueryBytes(name, qtype, unicastResponse), Labels(name);
    QueryFields(name, qtype, unicastResponse);
    SpellsLabels(bytes, HEADER_SIZE, labels);
    var end := HEADER_SIZE + WireLength(labels);
    SpelledNameDecodes(bytes, HEADER_SIZE, Literals(|labels|, Root), labels, end, 0);
    LabelsText(name);
    CStringOfNulFree(DisplayText(labels));
    FlagBits(unicastResponse);
    QuestionParses(bytes, HEADER_SIZE, DisplayText(labels), end, qtype, UniqueClass(unicastResponse));
    OneQuestionParses(bytes, Question(DisplayText(labels), qtype, CLASS_IN, unicastResponse), |bytes|);
  }
}
