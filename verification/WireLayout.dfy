/** The layout of packets on their bytes, and that the parser accepts exactly the packets laid out so, as what they
    hold. */
module WireLayout {
  import opened WireNames
  import opened WireDecode
  import opened WireParse

  // ---------- Names and numbers ----------

  /** A big-endian number of two bytes. */
  predicate Short(p: seq<byte>, at: nat, value: nat) {
    at + 2 <= |p| && value == 256 * (p[at] as int) + p[at + 1] as int
  }

  /** One of four bytes. */
  predicate Long(p: seq<byte>, at: nat, value: nat) {
    && at + 4 <= |p|
    && value == 16777216 * (p[at] as int) + 65536 * (p[at + 1] as int) + 256 * (p[at + 2] as int) + p[at + 3] as int
  }

  /** The part of a text before its first zero byte, as C reads it. */
  predicate UpToZero(text: seq<byte>, read: seq<byte>) {
    && read <= text && (forall i :: 0 <= i < |read| ==> read[i] != 0)
    && (|read| == |text| || text[|read|] == 0)
  }

  /** A name that reads as this text, with the end of its in-place part: no more than 32 jumps, 255 bytes when expanded,
      and 255 bytes of text. */
  ghost predicate NameLaid(p: seq<byte>, at: nat, text: seq<byte>, end: nat) {
    exists e, whole :: NameWitness(p, at, e, whole, end) && UpToZero(whole, text)
  }

  ghost predicate NameWitness(p: seq<byte>, at: nat, e: Expansion, whole: seq<byte>, end: nat) {
    && Expands(p, at, e) && e.Jumps() <= 32 && WireLength(ExpandedLabels(p, at, e)) <= 255
    && whole == DisplayText(ExpandedLabels(p, at, e)) && |whole| <= 255 && end == InPlaceEnd(p, at, e)
  }

  lemma {:induction false} CStringIs(text: seq<byte>, read: seq<byte>)
    ensures CString(text) == read <==> UpToZero(text, read)
    decreases |text|
  {
    if text == [] || text[0] == 0 {
      assert UpToZero(text, read) ==> read == [];
    } else if read == [] {
    } else {
      CStringIs(text[1..], read[1..]);
      assert CString(text) == [text[0]] + CString(text[1..]);
      if CString(text) == read {
        assert read[1..] == CString(text[1..]);
        assert text == [text[0]] + text[1..] && read == [read[0]] + read[1..];
      }
      if UpToZero(text, read) {
        assert read[1..] <= text[1..];
        assert UpToZero(text[1..], read[1..]);
        assert read == [read[0]] + read[1..];
      }
    }
  }

  /** A name is read as this text up to this end exactly if it is laid out so. */
  lemma NameExact(p: seq<byte>, at: nat, text: seq<byte>, end: nat)
    ensures NameAt(p, at) == Success((text, end)) <==> NameLaid(p, at, text, end)
  {
    hide Expands, ExpandedLabels, InPlaceEnd, UpToZero;
    if NameAt(p, at) == Success((text, end)) {
      var whole := DecodeName(p, at, 256).text;
      DecodeIff(p, at, 256, whole, end);
      var e :| ExpandsTo(p, at, 256, e, whole, end);
      CStringIs(whole, text);
      assert NameWitness(p, at, e, whole, end);
    }
    if NameLaid(p, at, text, end) {
      var e, whole :| NameWitness(p, at, e, whole, end) && UpToZero(whole, text);
      DecodeIff(p, at, 256, whole, end);
      assert ExpandsTo(p, at, 256, e, whole, end);
      CStringIs(whole, text);
    }
  }

  // ---------- Records ----------

  /** TXT data: strings that each follow their length. */
  ghost predicate Strings(bytes: seq<byte>, count: nat) {
    exists strings: seq<seq<byte>> ::
      (forall i :: 0 <= i < |strings| ==> |strings[i]| <= 255) && TxtBytes(strings) == bytes && |strings| == count
  }

  /** The data of a record between two offsets. Addresses, pointers, text and services are read; data of any other type
      is passed over. */
  ghost predicate DataLaid(p: seq<byte>, rtype: nat, start: nat, end: nat, data: RData) {
    && start <= end <= |p|
    && if rtype == 1 then data.A? && end == start + 4 && data.address == p[start..end]
       else if rtype == 12 then data.Ptr? && NameLaid(p, start, data.target, end)
       else if rtype == 16 then
         data.Txt? && data.bytes == p[start..end] && |data.bytes| <= 1024 && Strings(data.bytes, data.count)
       else if rtype == 33 then
         && data.Srv? && end >= start + 6 && Short(p, start, data.priority) && Short(p, start + 2, data.weight)
         && Short(p, start + 4, data.port) && NameLaid(p, start + 6, data.target, end)
       else data == NoData
  }

  /** A record: its owner, ten bytes of fields, and as many bytes of data as these say. The top bit of the class is a
      flag. */
  ghost predicate RecordLaid(p: seq<byte>, at: nat, r: Record, end: nat) {
    exists fields: nat :: RecordFieldsLaid(p, at, r, fields, end)
  }

  ghost predicate RecordFieldsLaid(p: seq<byte>, at: nat, r: Record, fields: nat, end: nat) {
    && NameLaid(p, at, r.owner, fields) && fields + 10 + r.rdataLength == end <= |p|
    && Short(p, fields, r.rtype) && Short(p, fields + 2, r.class_ + if r.cacheFlush then 32768 else 0)
    && r.class_ < 32768 && Long(p, fields + 4, r.ttl) && Short(p, fields + 8, r.rdataLength)
    && DataLaid(p, r.rtype, fields + 10, end, r.data)
  }

  lemma ShortIs(p: seq<byte>, size: nat, at: nat, value: u16)
    requires at <= size <= |p|
    ensures ReadU16(p, size, at) == Success(value) <==> Short(p, at, value) && at + 2 <= size
  {
  }

  lemma TxtIs(bytes: seq<byte>, data: RData)
    ensures TxtData(bytes) == Success(data)
       <==> data.Txt? && data.bytes == bytes && |bytes| <= 1024 && Strings(bytes, data.count)
  {
    hide TxtBytes, TxtStrings;
    if TxtStrings(bytes).Some? {
      TxtStringsSound(bytes);
    }
    if data.Txt? && Strings(bytes, data.count) {
      var strings: seq<seq<byte>> :|
        (forall i :: 0 <= i < |strings| ==> |strings[i]| <= 255)
        && TxtBytes(strings) == bytes && |strings| == data.count;
      TxtStringsComplete(strings);
    }
  }

  lemma SrvIs(p: seq<byte>, start: nat, end: nat, data: RData)
    requires start <= end <= |p|
    ensures ParseData(p, 33, start, end) == Success(data) <==> DataLaid(p, 33, start, end, data)
  {
    hide NameAt, NameLaid, TxtData, Short;
    if data.Srv? && start + 6 <= end {
      ShortIs(p, end, start, data.priority);
      ShortIs(p, end, start + 2, data.weight);
      ShortIs(p, end, start + 4, data.port);
      NameExact(p, start + 6, data.target, end);
      if NameAt(p, start + 6).Success? {
        NameExact(p, start + 6, NameAt(p, start + 6).value.0, NameAt(p, start + 6).value.1);
      }
    }
  }

  lemma DataExact(p: seq<byte>, rtype: u16, start: nat, end: nat, data: RData)
    requires start <= end <= |p|
    ensures ParseData(p, rtype, start, end) == Success(data) <==> DataLaid(p, rtype, start, end, data)
  {
    hide NameAt, NameLaid, TxtData, Strings;
    if rtype == 12 && data.Ptr? {
      NameExact(p, start, data.target, end);
    } else if rtype == 16 {
      TxtIs(p[start..end], data);
    } else if rtype == 33 {
      SrvIs(p, start, end, data);
    }
  }

  /** A record is parsed as this one, up to this end, exactly if it is laid out so. */
  lemma RecordExact(p: seq<byte>, at: nat, section: Section, r: Record, end: nat)
    ensures ParseRecord(p, at, section) == Success((r, end)) <==> r.section == section && RecordLaid(p, at, r, end)
  {
    hide NameAt, NameLaid, ParseData, DataLaid, RecordFieldsLaid, ParseFields;
    if NameAt(p, at).Success? {
      var (owner, fields) := NameAt(p, at).value;
      NameExact(p, at, owner, fields);
      FieldsExact(p, at, owner, fields, section, r, end);
      if RecordLaid(p, at, r, end) {
        var f: nat :| RecordFieldsLaid(p, at, r, f, end);
        OwnerOf(p, at, r, f, end);
        assert f == fields;
      }
    } else if RecordLaid(p, at, r, end) {
      var f: nat :| RecordFieldsLaid(p, at, r, f, end);
      OwnerOf(p, at, r, f, end);
    }
  }

  lemma OwnerOf(p: seq<byte>, at: nat, r: Record, fields: nat, end: nat)
    requires RecordFieldsLaid(p, at, r, fields, end)
    ensures NameAt(p, at) == Success((r.owner, fields))
  {
    hide NameAt, NameLaid, DataLaid;
    NameExact(p, at, r.owner, fields);
  }

  lemma FieldsExact(p: seq<byte>, at: nat, owner: seq<byte>, fields: nat, section: Section, r: Record, end: nat)
    requires NameAt(p, at) == Success((owner, fields)) && fields <= |p|
    ensures ParseFields(p, owner, fields, section) == Success((r, end))
       <==> r.section == section && r.owner == owner && RecordFieldsLaid(p, at, r, fields, end)
  {
    hide NameAt, NameLaid, ParseData, DataLaid, Short, Long, ReadU16, ReadU32;
    NameExact(p, at, r.owner, fields);
    FieldNumbers(p, fields, r);
    var start := fields + 10;
    if start + r.rdataLength <= |p| { DataExact(p, r.rtype, start, start + r.rdataLength, r.data); }
  }

  /** The fields, each read or not. */
  lemma FieldNumbers(p: seq<byte>, fields: nat, r: Record)
    requires fields <= |p|
    ensures ReadU16(p, |p|, fields) == Success(r.rtype) <==> Short(p, fields, r.rtype)
    ensures ReadU16(p, |p|, fields).Success? ==> fields + 2 <= |p|
    ensures fields + 2 <= |p| ==>
      && (ReadU16(p, |p|, fields + 2).Success? ==> fields + 4 <= |p|)
      && ((ReadU16(p, |p|, fields + 2).Success?
           && var raw := ReadU16(p, |p|, fields + 2).value;
              r.class_ == WithoutFlush(raw) && r.cacheFlush == (raw >= CACHE_FLUSH))
          <==> Short(p, fields + 2, r.class_ + if r.cacheFlush then 32768 else 0) && r.class_ < 32768)
    ensures fields + 4 <= |p| ==>
      && (ReadU32(p, |p|, fields + 4).Success? ==> fields + 8 <= |p|)
      && (ReadU32(p, |p|, fields + 4) == Success(r.ttl) <==> Long(p, fields + 4, r.ttl))
    ensures fields + 8 <= |p| ==>
      && (ReadU16(p, |p|, fields + 8).Success? ==> fields + 10 <= |p|)
      && (ReadU16(p, |p|, fields + 8) == Success(r.rdataLength) <==> Short(p, fields + 8, r.rdataLength))
    ensures Short(p, fields, r.rtype) ==> fields + 2 <= |p|
    ensures Long(p, fields + 4, r.ttl) ==> fields + 8 <= |p|
    ensures Short(p, fields + 8, r.rdataLength) ==> fields + 10 <= |p|
  {
  }

  /** In particular records of types the code does not know are accepted, whatever their data. */
  lemma UnknownAccepted(p: seq<byte>, at: nat, section: Section, owner: seq<byte>, fields: nat, rtype: u16, length: u16)
    requires NameLaid(p, at, owner, fields) && Short(p, fields, rtype) && rtype !in {1, 12, 16, 33}
    requires Short(p, fields + 8, length) && fields + 10 + length <= |p|
    ensures ParseRecord(p, at, section).Success?
    ensures ParseRecord(p, at, section).value.0.data == NoData
    ensures ParseRecord(p, at, section).value.1 == fields + 10 + length
  {
    hide NameLaid, ParseRecord, Be32;
    var raw: u16, ttl: u32 := Be16(p[fields + 2], p[fields + 3]),
                              Be32(p[fields + 4], p[fields + 5], p[fields + 6], p[fields + 7]);
    var r := Record(owner, section, rtype, WithoutFlush(raw), raw >= 32768, ttl, length, NoData);
    LongRead(p, fields + 4, ttl);
    assert RecordFieldsLaid(p, at, r, fields, fields + 10 + length);
    RecordExact(p, at, section, r, fields + 10 + length);
  }

  lemma LongRead(p: seq<byte>, at: nat, value: u32)
    requires at + 4 <= |p| && value == Be32(p[at], p[at + 1], p[at + 2], p[at + 3])
    ensures Long(p, at, value)
  {
  }

  // ---------- Questions ----------

  ghost predicate QuestionLaid(p: seq<byte>, at: nat, q: Question, end: nat) {
    exists fields: nat ::
      && NameLaid(p, at, q.name, fields) && end == fields + 4 && Short(p, fields, q.qtype)
      && Short(p, fields + 2, q.class_ + if q.unicastResponse then 32768 else 0) && q.class_ < 32768
  }

  lemma QuestionExact(p: seq<byte>, at: nat, q: Question, end: nat)
    ensures ParseQuestion(p, at) == Success((q, end)) <==> QuestionLaid(p, at, q, end)
  {
    hide NameAt, NameLaid;
    if NameAt(p, at).Success? {
      NameExact(p, at, NameAt(p, at).value.0, NameAt(p, at).value.1);
    }
    if QuestionLaid(p, at, q, end) {
      var fields: nat :|
        && NameLaid(p, at, q.name, fields) && end == fields + 4 && Short(p, fields, q.qtype)
        && Short(p, fields + 2, q.class_ + if q.unicastResponse then 32768 else 0) && q.class_ < 32768;
      NameExact(p, at, q.name, fields);
    }
  }

  // ---------- Packets ----------

  /** Items that follow one another without gaps, each laid out between two of these offsets. */
  ghost predicate QuestionsLaid(p: seq<byte>, qs: seq<Question>, at: seq<nat>) {
    |at| == |qs| + 1 && forall i :: 0 <= i < |qs| ==> QuestionLaid(p, at[i], qs[i], at[i + 1])
  }

  ghost predicate RecordsLaid(p: seq<byte>, rs: seq<Record>, at: seq<nat>) {
    |at| == |rs| + 1 && forall i :: 0 <= i < |rs| ==> RecordLaid(p, at[i], rs[i], at[i + 1])
  }

  lemma {:induction false} QuestionsExact(p: seq<byte>, offset: nat, count: nat, sofar: seq<Question>,
                                          all: seq<Question>, end: nat)
    ensures ParseQuestions(p, offset, count, sofar) == Success((all, end)) <==>
              exists qs, at :: QuestionsLaid(p, qs, at) && |qs| == count && all == sofar + qs
                               && at[0] == offset && at[count] == end
    decreases count
  {
    hide ParseQuestion, QuestionLaid;
    if count == 0 {
      if all == sofar && end == offset {
        assert QuestionsLaid(p, [], [offset]) && all == sofar + [];
      }
      forall qs, at | QuestionsLaid(p, qs, at) && |qs| == 0 && all == sofar + qs && at[0] == offset && at[0] == end
        ensures all == sofar && end == offset
      {
      }
    } else {
      if ParseQuestions(p, offset, count, sofar) == Success((all, end)) {
        var (q, next) := ParseQuestion(p, offset).value;
        QuestionExact(p, offset, q, next);
        QuestionsExact(p, next, count - 1, sofar + [q], all, end);
        var qs, at :| QuestionsLaid(p, qs, at) && |qs| == count - 1 && all == (sofar + [q]) + qs
                      && at[0] == next && at[count - 1] == end;
        QuestionBefore(p, offset, q, qs, at);
        assert all == sofar + ([q] + qs);
      }
      forall qs, at | QuestionsLaid(p, qs, at) && |qs| == count && all == sofar + qs
                      && at[0] == offset && at[count] == end
        ensures ParseQuestions(p, offset, count, sofar) == Success((all, end))
      {
        QuestionExact(p, offset, qs[0], at[1]);
        QuestionsExact(p, at[1], count - 1, sofar + [qs[0]], all, end);
        QuestionAfter(p, qs, at);
        assert all == (sofar + [qs[0]]) + qs[1..];
      }
    }
  }

  lemma QuestionBefore(p: seq<byte>, offset: nat, q: Question, qs: seq<Question>, at: seq<nat>)
    requires QuestionsLaid(p, qs, at) && QuestionLaid(p, offset, q, at[0])
    ensures QuestionsLaid(p, [q] + qs, [offset] + at)
  {
    hide QuestionLaid;
    var qs', at' := [q] + qs, [offset] + at;
    forall i | 0 <= i < |qs'|
      ensures QuestionLaid(p, at'[i], qs'[i], at'[i + 1])
    {
      if i > 0 { assert QuestionLaid(p, at[i - 1], qs[i - 1], at[i]); }
    }
  }

  lemma QuestionAfter(p: seq<byte>, qs: seq<Question>, at: seq<nat>)
    requires QuestionsLaid(p, qs, at) && qs != []
    ensures QuestionsLaid(p, qs[1..], at[1..])
  {
    hide QuestionLaid;
    forall i | 0 <= i < |qs| - 1
      ensures QuestionLaid(p, at[1..][i], qs[1..][i], at[1..][i + 1])
    {
      assert QuestionLaid(p, at[i + 1], qs[i + 1], at[i + 2]);
    }
  }

  ghost predicate InSection(rs: seq<Record>, section: Section) {
    forall i :: 0 <= i < |rs| ==> rs[i].section == section
  }

  /** Records of one section between two offsets. */
  ghost predicate SectionLaid(p: seq<byte>, rs: seq<Record>, at: seq<nat>, section: Section, from: nat, end: nat) {
    RecordsLaid(p, rs, at) && InSection(rs, section) && at[0] == from && at[|rs|] == end
  }

  lemma {:induction false} SectionParses(p: seq<byte>, rs: seq<Record>, at: seq<nat>, section: Section, from: nat,
                                         end: nat, sofar: seq<Record>)
    requires SectionLaid(p, rs, at, section, from, end)
    ensures ParseRecords(p, from, |rs|, section, sofar) == Success((sofar + rs, end))
    decreases |rs|
  {
    hide ParseRecord, RecordLaid;
    if rs == [] {
      assert sofar + rs == sofar;
    } else {
      RecordExact(p, from, section, rs[0], at[1]);
      RecordAfter(p, rs, at);
      assert InSection(rs[1..], section);
      SectionParses(p, rs[1..], at[1..], section, at[1], end, sofar + [rs[0]]);
      assert (sofar + [rs[0]]) + rs[1..] == sofar + rs;
    }
  }

  lemma {:induction false} SectionFound(p: seq<byte>, from: nat, count: nat, section: Section, sofar: seq<Record>,
                                        all: seq<Record>, end: nat)
    returns (rs: seq<Record>, at: seq<nat>)
    requires ParseRecords(p, from, count, section, sofar) == Success((all, end))
    ensures SectionLaid(p, rs, at, section, from, end) && |rs| == count && all == sofar + rs
    decreases count
  {
    hide ParseRecord, RecordLaid;
    if count == 0 {
      rs, at := [], [from];
    } else {
      var (r, next) := ParseRecord(p, from, section).value;
      RecordExact(p, from, section, r, next);
      var rest, behind := SectionFound(p, next, count - 1, section, sofar + [r], all, end);
      RecordBefore(p, from, r, rest, behind);
      rs, at := [r] + rest, [from] + behind;
      assert (sofar + [r]) + rest == sofar + rs;
    }
  }

  lemma RecordBefore(p: seq<byte>, offset: nat, r: Record, rs: seq<Record>, at: seq<nat>)
    requires RecordsLaid(p, rs, at) && RecordLaid(p, offset, r, at[0])
    ensures RecordsLaid(p, [r] + rs, [offset] + at)
  {
    hide RecordLaid;
    var rs', at' := [r] + rs, [offset] + at;
    forall i | 0 <= i < |rs'|
      ensures RecordLaid(p, at'[i], rs'[i], at'[i + 1])
    {
      if i > 0 { assert RecordLaid(p, at[i - 1], rs[i - 1], at[i]); }
    }
  }

  lemma RecordAfter(p: seq<byte>, rs: seq<Record>, at: seq<nat>)
    requires RecordsLaid(p, rs, at) && rs != []
    ensures RecordsLaid(p, rs[1..], at[1..])
  {
    hide RecordLaid;
    forall i | 0 <= i < |rs| - 1
      ensures RecordLaid(p, at[1..][i], rs[1..][i], at[1..][i + 1])
    {
      assert RecordLaid(p, at[i + 1], rs[i + 1], at[i + 2]);
    }
  }

  /** The three sections, one after the other. */
  predicate Sectioned(rs: seq<Record>, answers: nat, authorities: nat, additionals: nat) {
    && |rs| == answers + authorities + additionals
    && forall i :: 0 <= i < |rs| ==>
         rs[i].section == if i < answers then Answer else if i < answers + authorities then Authority else Additional
  }

  ghost predicate HeaderLaid(p: seq<byte>, h: Header) {
    && Short(p, 0, h.id) && Short(p, 2, h.flags) && Short(p, 4, h.questions) && Short(p, 6, h.answers)
    && Short(p, 8, h.authorities) && Short(p, 10, h.additionals)
  }

  /** A packet: six numbers, then as many questions and records as these say, without gaps, up to `end`. Bytes after
      that do not matter. */
  ghost predicate PacketLaid(p: seq<byte>, packet: Packet, end: nat) {
    var h := packet.header;
    && HeaderLaid(p, h) && |packet.questions| == h.questions
    && Sectioned(packet.records, h.answers, h.authorities, h.additionals)
    && exists qAt, rAt :: ItemsLaid(p, packet, qAt, rAt, end)
  }

  ghost predicate ItemsLaid(p: seq<byte>, packet: Packet, qAt: seq<nat>, rAt: seq<nat>, end: nat) {
    && QuestionsLaid(p, packet.questions, qAt) && RecordsLaid(p, packet.records, rAt)
    && qAt[0] == 12 && qAt[|packet.questions|] == rAt[0] && rAt[|packet.records|] == end
  }

  /** The parser accepts a packet, as this one, exactly if it is laid out so. */
  lemma PacketExact(p: seq<byte>, packet: Packet, end: nat)
    ensures ParseAll(p) == Success((packet, end)) <==> PacketLaid(p, packet, end)
  {
    hide ParseQuestions, ParseRecords, QuestionsLaid, RecordsLaid, Sectioned, ItemsLaid;
    if ParseAll(p) == Success((packet, end)) {
      ParsedIsLaid(p, packet, end);
    }
    if PacketLaid(p, packet, end) {
      LaidIsParsed(p, packet, end);
    }
  }

  lemma ParsedIsLaid(p: seq<byte>, packet: Packet, end: nat)
    requires ParseAll(p) == Success((packet, end))
    ensures PacketLaid(p, packet, end)
  {
    hide ParseQuestions, ParseRecords, QuestionLaid, RecordLaid, HeaderLaid, PacketLaid, InSection, Be16;
    var h := HeaderOf(p);
    var (qs, a) := ParseQuestions(p, 12, h.questions, []).value;
    var (answers, b) := ParseRecords(p, a, h.answers, Answer, []).value;
    var (more, c) := ParseRecords(p, b, h.authorities, Authority, answers).value;
    var q0, qAt := QuestionsLie(p, 12, h.questions, [], qs, a);
    var r1, at1 := SectionFound(p, a, h.answers, Answer, [], answers, b);
    var r2, at2 := SectionFound(p, b, h.authorities, Authority, answers, more, c);
    var (records, d) := ParseRecords(p, c, h.additionals, Additional, more).value;
    assert packet == Packet(h, qs, records) && d == end;
    var r3, at3 := SectionFound(p, c, h.additionals, Additional, more, records, d);
    assert qs == q0 && answers == r1 && more == r1 + r2;
    HeaderIs(p);
    SectionsJoined(p, packet, qAt, r1, at1, r2, at2, r3, at3, end);
  }

  lemma QuestionsLie(p: seq<byte>, offset: nat, count: nat, sofar: seq<Question>, all: seq<Question>, end: nat)
    returns (qs: seq<Question>, at: seq<nat>)
    requires ParseQuestions(p, offset, count, sofar) == Success((all, end))
    ensures QuestionsLaid(p, qs, at) && |qs| == count && all == sofar + qs && at[0] == offset && at[count] == end
  {
    hide QuestionLaid;
    QuestionsExact(p, offset, count, sofar, all, end);
    qs, at :| QuestionsLaid(p, qs, at) && |qs| == count && all == sofar + qs && at[0] == offset && at[count] == end;
  }

  lemma HeaderIs(p: seq<byte>)
    requires |p| >= 12
    ensures HeaderLaid(p, HeaderOf(p))
  {
  }

  lemma SectionsJoined(p: seq<byte>, packet: Packet, qAt: seq<nat>, r1: seq<Record>, at1: seq<nat>, r2: seq<Record>,
                       at2: seq<nat>, r3: seq<Record>, at3: seq<nat>, end: nat)
    requires HeaderLaid(p, packet.header) && QuestionsLaid(p, packet.questions, qAt)
    requires RecordsLaid(p, r1, at1) && RecordsLaid(p, r2, at2) && RecordsLaid(p, r3, at3)
    requires packet.records == r1 + r2 + r3
    requires InSection(r1, Answer) && InSection(r2, Authority) && InSection(r3, Additional)
    requires var h := packet.header;
             |packet.questions| == h.questions && |r1| == h.answers && |r2| == h.authorities && |r3| == h.additionals
    requires qAt[0] == 12 && qAt[|packet.questions|] == at1[0] && at1[|r1|] == at2[0] && at2[|r2|] == at3[0]
    requires at3[|r3|] == end
    ensures PacketLaid(p, packet, end)
  {
    hide QuestionLaid, RecordLaid, HeaderLaid;
    var at12 := RecordsJoined(p, r1, at1, r2, at2);
    var rAt := RecordsJoined(p, r1 + r2, at12, r3, at3);
    assert ItemsLaid(p, packet, qAt, rAt, end);
  }

  lemma RecordsJoined(p: seq<byte>, a: seq<Record>, atA: seq<nat>, b: seq<Record>, atB: seq<nat>) returns (at: seq<nat>)
    requires RecordsLaid(p, a, atA) && RecordsLaid(p, b, atB) && atA[|a|] == atB[0]
    ensures RecordsLaid(p, a + b, at) && at[0] == atA[0] && at[|a + b|] == atB[|b|]
  {
    hide RecordLaid;
    at := atA + atB[1..];
    forall i | 0 <= i < |a + b|
      ensures RecordLaid(p, at[i], (a + b)[i], at[i + 1])
    {
      if i < |a| {
        assert RecordLaid(p, atA[i], a[i], atA[i + 1]);
      } else {
        assert RecordLaid(p, atB[i - |a|], b[i - |a|], atB[i - |a| + 1]);
      }
    }
  }

  lemma RecordsSplit(p: seq<byte>, rs: seq<Record>, at: seq<nat>, n: nat)
    requires RecordsLaid(p, rs, at) && n <= |rs|
    ensures RecordsLaid(p, rs[..n], at[..n + 1]) && RecordsLaid(p, rs[n..], at[n..])
  {
    hide RecordLaid;
    var rest, from := rs[n..], at[n..];
    forall i | 0 <= i < |rest|
      ensures RecordLaid(p, from[i], rest[i], from[i + 1])
    {
      assert RecordLaid(p, at[n + i], rs[n + i], at[n + i + 1]);
    }
  }

  lemma LaidIsParsed(p: seq<byte>, packet: Packet, end: nat)
    requires PacketLaid(p, packet, end)
    ensures ParseAll(p) == Success((packet, end))
  {
    hide ParseQuestions, ParseRecords, QuestionLaid, RecordLaid, RecordsLaid, QuestionsLaid, Sectioned, InSection, Be16;
    var h, rs := packet.header, packet.records;
    var qAt, rAt :| ItemsLaid(p, packet, qAt, rAt, end);
    LaidLengths(p, packet, qAt, rAt, end);
    var m, n := h.answers as nat, (h.answers + h.authorities) as nat;
    SectionsOf(p, rs, rAt, h.answers, h.authorities, h.additionals);
    QuestionsParse(p, packet.questions, qAt);
    RecordsParse(p, rs[..m], rAt[..m + 1], Answer, []);
    RecordsParse(p, rs[m..n], rAt[m..n + 1], Authority, rs[..m]);
    RecordsParse(p, rs[n..], rAt[n..], Additional, rs[..n]);
    assert [] + packet.questions == packet.questions && [] + rs[..m] == rs[..m];
    assert rs[..m] + rs[m..n] == rs[..n] && rs[..n] + rs[n..] == rs;
    HeaderOnce(p, h);
  }

  lemma HeaderOnce(p: seq<byte>, h: Header)
    requires HeaderLaid(p, h)
    ensures |p| >= 12 && HeaderOf(p) == h
  {
  }

  lemma QuestionsParse(p: seq<byte>, qs: seq<Question>, at: seq<nat>)
    requires QuestionsLaid(p, qs, at)
    ensures ParseQuestions(p, at[0], |qs|, []) == Success(([] + qs, at[|qs|]))
  {
    hide ParseQuestions, QuestionLaid;
    QuestionsExact(p, at[0], |qs|, [], [] + qs, at[|qs|]);
  }

  lemma RecordsParse(p: seq<byte>, rs: seq<Record>, at: seq<nat>, section: Section, sofar: seq<Record>)
    requires RecordsLaid(p, rs, at) && InSection(rs, section)
    ensures ParseRecords(p, at[0], |rs|, section, sofar) == Success((sofar + rs, at[|rs|]))
  {
    hide ParseRecords, RecordLaid;
    SectionParses(p, rs, at, section, at[0], at[|rs|], sofar);
  }

  lemma SectionsOf(p: seq<byte>, rs: seq<Record>, at: seq<nat>, answers: nat, authorities: nat, additionals: nat)
    requires RecordsLaid(p, rs, at) && Sectioned(rs, answers, authorities, additionals)
    ensures |rs| == answers + authorities + additionals && |at| == |rs| + 1
    ensures var m, n := answers, answers + authorities;
            && RecordsLaid(p, rs[..m], at[..m + 1]) && RecordsLaid(p, rs[m..n], at[m..n + 1])
            && RecordsLaid(p, rs[n..], at[n..])
            && InSection(rs[..m], Answer) && InSection(rs[m..n], Authority) && InSection(rs[n..], Additional)
  {
    hide RecordLaid, RecordsLaid;
    var m, n := answers, answers + authorities;
    LaidAlike(p, rs, at);
    RecordsSplit(p, rs, at, n);
    RecordsSplit(p, rs[..n], at[..n + 1], m);
    assert rs[..n][..m] == rs[..m] && rs[..n][m..] == rs[m..n];
    assert at[..n + 1][..m + 1] == at[..m + 1] && at[..n + 1][m..] == at[m..n + 1];
  }

  lemma LaidAlike(p: seq<byte>, rs: seq<Record>, at: seq<nat>)
    requires RecordsLaid(p, rs, at)
    ensures |at| == |rs| + 1
  {
    hide RecordLaid;
  }

  lemma LaidLengths(p: seq<byte>, packet: Packet, qAt: seq<nat>, rAt: seq<nat>, end: nat)
    requires ItemsLaid(p, packet, qAt, rAt, end)
    ensures |qAt| == |packet.questions| + 1 && |rAt| == |packet.records| + 1
  {
    hide QuestionLaid, RecordLaid;
  }

  /** What the code keeps of a packet: the first eight questions and the first thirty-two records. */
  lemma KeptExact(packet: Packet)
    ensures var kept := Bounded(packet);
            && kept.header == packet.header && kept.questions <= packet.questions && kept.records <= packet.records
            && |kept.questions| == (if |packet.questions| < 8 then |packet.questions| else 8)
            && |kept.records| == (if |packet.records| < 32 then |packet.records| else 32)
  {
  }
}
