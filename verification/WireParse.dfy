/** Parsing of DNS messages: questions, resource records and the TXT string index. */
module WireParse {
  import opened Options
  import opened WireNames
  import opened WireDecode

  const HEADER_SIZE := 12
  const MAX_QUESTIONS := 8
  const MAX_RECORDS := 32
  const MAX_TXT_BYTES := 1024
  const CACHE_FLUSH := 0x8000
  const CLASS_IN: u16 := 1
  const TYPE_A: u16 := 1
  const TYPE_PTR: u16 := 12
  const TYPE_TXT: u16 := 16
  const TYPE_SRV: u16 := 33

  datatype Section = Answer | Authority | Additional

  datatype RData =
    | NoData
    | A(address: Ipv4)
    | Ptr(target: seq<byte>)
    | Txt(bytes: seq<byte>, count: nat)
    | Srv(priority: u16, weight: u16, port: u16, target: seq<byte>)

  datatype Question = Question(name: seq<byte>, qtype: u16, class_: u16, unicastResponse: bool)

  datatype Record = Record(owner: seq<byte>, section: Section, rtype: u16, class_: u16, cacheFlush: bool,
                           ttl: u32, rdataLength: u16, data: RData)

  datatype Header = Header(id: u16, flags: u16, questions: u16, answers: u16, authorities: u16, additionals: u16)

  datatype Packet = Packet(header: Header, questions: seq<Question>, records: seq<Record>)

  datatype Result<+T> = Success(value: T) | Failure(status: Status)
  {
    predicate IsFailure() { Failure? }
    function PropagateFailure<U>(): Result<U>
      requires Failure?
    { Failure(status) }
    function Extract(): T
      requires Success?
    { value }
  }

  // ---------- Specification ----------

  /** What a reader of a NUL-terminated buffer sees of its bytes. */
  function CString(text: seq<byte>): seq<byte> {
    if text == [] || text[0] == 0 then [] else [text[0]] + CString(text[1..])
  }

  predicate NulFree(text: seq<byte>) {
    forall i :: 0 <= i < |text| ==> text[i] != 0
  }

  function ReadU16(data: seq<byte>, size: nat, offset: nat): Result<u16>
    requires offset <= size <= |data|
  {
    if size - offset < 2 then Failure(Truncated) else Success(Be16(data[offset], data[offset + 1]))
  }

  function ReadU32(data: seq<byte>, size: nat, offset: nat): Result<u32>
    requires offset <= size <= |data|
  {
    if size - offset < 4 then Failure(Truncated)
    else Success(Be32(data[offset], data[offset + 1], data[offset + 2], data[offset + 3]))
  }

  /** The class with its top bit cleared: that bit is the cache-flush or unicast-response flag. */
  function WithoutFlush(rawClass: u16): u16 {
    if rawClass >= CACHE_FLUSH then rawClass - CACHE_FLUSH else rawClass
  }

  /** A name in a 256-byte field, with the offset after its in-place part. */
  function NameAt(data: seq<byte>, offset: nat): (r: Result<(seq<byte>, nat)>)
    ensures r.Success? ==> offset < r.value.1 <= |data|
  {
    match DecodeName(data, offset, MAX_NAME)
    case Failed(status) => Failure(status)
    case Decoded(text, next) =>
      DecodeAdvances(data, offset, MAX_NAME);
      Success((CString(text), next))
  }

  function ParseQuestion(data: seq<byte>, offset: nat): (r: Result<(Question, nat)>)
    ensures r.Success? ==> offset < r.value.1 <= |data|
  {
    var (name, afterName) :- NameAt(data, offset);
    var qtype :- ReadU16(data, |data|, afterName);
    var rawClass :- ReadU16(data, |data|, afterName + 2);
    Success((Question(name, qtype, WithoutFlush(rawClass), rawClass >= CACHE_FLUSH), afterName + 4))
  }

  /** The strings of TXT data: a length byte and that many bytes each, with nothing left over. */
  function TxtStrings(bytes: seq<byte>): Option<seq<seq<byte>>>
  {
    if bytes == [] then Some([])
    else if bytes[0] > |bytes| - 1 then None
    else match TxtStrings(bytes[1 + bytes[0]..])
         case None => None
         case Some(rest) => Some([bytes[1..1 + bytes[0]]] + rest)
  }

  function TxtData(bytes: seq<byte>): Result<RData>
  {
    if |bytes| > MAX_TXT_BYTES then Failure(LimitExceeded)
    else match TxtStrings(bytes)
         case None => Failure(Malformed)
         case Some(strings) => Success(Txt(bytes, |strings|))
  }

  /** The data of a record of a known type between `start` and `end`; other types are skipped. */
  function ParseData(data: seq<byte>, rtype: u16, start: nat, end: nat): Result<RData>
    requires start <= end <= |data|
  {
    if rtype == TYPE_A then
      if end - start != 4 then Failure(Malformed) else Success(A(data[start..end]))
    else if rtype == TYPE_PTR then
      var (target, after) :- NameAt(data, start);
      if after != end then Failure(Malformed) else Success(Ptr(target))
    else if rtype == TYPE_TXT then TxtData(data[start..end])
    else if rtype == TYPE_SRV then
      if end - start < 7 then Failure(Malformed)
      else
        var priority :- ReadU16(data, end, start);
        var weight :- ReadU16(data, end, start + 2);
        var port :- ReadU16(data, end, start + 4);
        var (target, after) :- NameAt(data, start + 6);
        if after != end then Failure(Malformed) else Success(Srv(priority, weight, port, target))
    else Success(NoData)
  }

  /** The fields of a record whose owner has been read, from `at` on. */
  function ParseFields(data: seq<byte>, owner: seq<byte>, at: nat, section: Section): (r: Result<(Record, nat)>)
    requires at <= |data|
    ensures r.Success? ==> at < r.value.1 <= |data|
  {
    var rtype :- ReadU16(data, |data|, at);
    var rawClass :- ReadU16(data, |data|, at + 2);
    var ttl :- ReadU32(data, |data|, at + 4);
    var length :- ReadU16(data, |data|, at + 8);
    var start := at + 10;
    if length > |data| - start then Failure(Truncated)
    else
      var rdata :- ParseData(data, rtype, start, start + length);
      Success((Record(owner, section, rtype, WithoutFlush(rawClass), rawClass >= CACHE_FLUSH, ttl, length, rdata),
               start + length))
  }

  function ParseRecord(data: seq<byte>, offset: nat, section: Section): (r: Result<(Record, nat)>)
    ensures r.Success? ==> offset < r.value.1 <= |data|
  {
    var (owner, afterName) :- NameAt(data, offset);
    ParseFields(data, owner, afterName, section)
  }

  /** `count` further questions, appended to the ones parsed so far: no bound on how many are kept. */
  function ParseQuestions(data: seq<byte>, offset: nat, count: nat, sofar: seq<Question>): Result<(seq<Question>, nat)>
    decreases count
  {
    if count == 0 then Success((sofar, offset))
    else
      var (question, next) :- ParseQuestion(data, offset);
      ParseQuestions(data, next, count - 1, sofar + [question])
  }

  function ParseRecords(data: seq<byte>, offset: nat, count: nat, section: Section, sofar: seq<Record>)
    : Result<(seq<Record>, nat)>
    decreases count
  {
    if count == 0 then Success((sofar, offset))
    else
      var (record, next) :- ParseRecord(data, offset, section);
      ParseRecords(data, next, count - 1, section, sofar + [record])
  }

  function HeaderOf(data: seq<byte>): Header
    requires |data| >= HEADER_SIZE
  {
    Header(Be16(data[0], data[1]), Be16(data[2], data[3]), Be16(data[4], data[5]),
           Be16(data[6], data[7]), Be16(data[8], data[9]), Be16(data[10], data[11]))
  }

  /** A parser without limits: every declared question and record, and the offset after the last one. */
  function ParseAll(data: seq<byte>): Result<(Packet, nat)>
  {
    if |data| < HEADER_SIZE then Failure(Truncated)
    else
      var header := HeaderOf(data);
      var (questions, afterQuestions) :- ParseQuestions(data, HEADER_SIZE, header.questions, []);
      var (answers, afterAnswers) :- ParseRecords(data, afterQuestions, header.answers, Answer, []);
      var (more, afterMore) :- ParseRecords(data, afterAnswers, header.authorities, Authority, answers);
      var (records, end) :- ParseRecords(data, afterMore, header.additionals, Additional, more);
      Success((Packet(header, questions, records), end))
  }

  function FirstOf<T>(items: seq<T>, limit: nat): seq<T> {
    if |items| <= limit then items else items[..limit]
  }

  function Bounded(packet: Packet): Packet {
    Packet(packet.header, FirstOf(packet.questions, MAX_QUESTIONS), FirstOf(packet.records, MAX_RECORDS))
  }

  // ---------- Properties of the specification ----------

  lemma FirstOfSnoc<T>(items: seq<T>, item: T, limit: nat)
    ensures FirstOf(items + [item], limit)
         == if |FirstOf(items, limit)| < limit then FirstOf(items, limit) + [item] else FirstOf(items, limit)
  {
    if |items| >= limit {
      assert (items + [item])[..limit] == items[..limit];
    }
  }

  lemma {:induction false} CStringOfNulFree(text: seq<byte>)
    requires NulFree(text)
    ensures CString(text) == text
  {
    if text == [] {
    } else {
      assert text == [text[0]] + text[1..];
      CStringOfNulFree(text[1..]);
    }
  }

  lemma {:induction false} CStringNulFree(text: seq<byte>)
    ensures NulFree(CString(text)) && CString(text) <= text
  {
    if text != [] && text[0] != 0 {
      CStringNulFree(text[1..]);
      assert text == [text[0]] + text[1..];
    }
  }

  /** TXT data is the concatenation of its length-prefixed strings. */
  function TxtBytes(strings: seq<seq<byte>>): seq<byte>
    requires forall i :: 0 <= i < |strings| ==> |strings[i]| <= 255
  {
    if strings == [] then [] else LengthPrefixed(strings[0]) + TxtBytes(strings[1..])
  }

  /** Parsing TXT data loses nothing: the strings found, prefixed by their lengths, are the bytes. */
  lemma {:induction false} TxtStringsSound(bytes: seq<byte>)
    requires TxtStrings(bytes).Some?
    ensures var strings := TxtStrings(bytes).value;
            && (forall i :: 0 <= i < |strings| ==> |strings[i]| <= 255)
            && TxtBytes(strings) == bytes && |strings| <= |bytes|
  {
    if bytes == [] {
    } else {
      var rest := bytes[1 + bytes[0]..];
      TxtStringsSound(rest);
      var strings := TxtStrings(bytes).value;
      assert strings[1..] == TxtStrings(rest).value;
      assert bytes == LengthPrefixed(bytes[1..1 + bytes[0]]) + rest;
    }
  }

  lemma {:induction false} TxtStringsComplete(strings: seq<seq<byte>>)
    requires forall i :: 0 <= i < |strings| ==> |strings[i]| <= 255
    ensures TxtStrings(TxtBytes(strings)) == Some(strings)
  {
    if strings == [] {
    } else {
      TxtStringsComplete(strings[1..]);
      var bytes := TxtBytes(strings);
      assert bytes[1..1 + bytes[0]] == strings[0];
      assert bytes[1 + bytes[0]..] == TxtBytes(strings[1..]);
      assert [strings[0]] + strings[1..] == strings;
    }
  }

  lemma {:induction false} QuestionsAdvance(data: seq<byte>, offset: nat, count: nat, sofar: seq<Question>)
    requires offset <= |data|
    ensures var r := ParseQuestions(data, offset, count, sofar);
            r.Success? ==> && offset + count <= r.value.1 <= |data|
                           && |r.value.0| == |sofar| + count && sofar <= r.value.0
    decreases count
  {
    hide ParseQuestion;
    if count > 0 && ParseQuestion(data, offset).Success? {
      var (question, next) := ParseQuestion(data, offset).value;
      QuestionsAdvance(data, next, count - 1, sofar + [question]);
    }
  }

  lemma {:induction false} RecordsAdvance(data: seq<byte>, offset: nat, count: nat, section: Section,
                                          sofar: seq<Record>)
    requires offset <= |data|
    ensures var r := ParseRecords(data, offset, count, section, sofar);
            r.Success? ==> && offset + count <= r.value.1 <= |data|
                           && |r.value.0| == |sofar| + count && sofar <= r.value.0
    decreases count
  {
    hide ParseRecord;
    if count > 0 && ParseRecord(data, offset, section).Success? {
      var (record, next) := ParseRecord(data, offset, section).value;
      RecordsAdvance(data, next, count - 1, section, sofar + [record]);
    }
  }

  /** Every declared item is consumed, in order, without leaving the packet. */
  lemma ParseAllConsumes(data: seq<byte>)
    requires ParseAll(data).Success?
    ensures var (packet, end) := ParseAll(data).value;
            && |packet.questions| == packet.header.questions
            && |packet.records| == packet.header.answers + packet.header.authorities + packet.header.additionals
            && HEADER_SIZE + |packet.questions| + |packet.records| <= end <= |data|
  {
    var header := HeaderOf(data);
    QuestionsAdvance(data, HEADER_SIZE, header.questions, []);
    var (_, a) := ParseQuestions(data, HEADER_SIZE, header.questions, []).value;
    RecordsAdvance(data, a, header.answers, Answer, []);
    var (answers, b) := ParseRecords(data, a, header.answers, Answer, []).value;
    RecordsAdvance(data, b, header.authorities, Authority, answers);
    var (more, c) := ParseRecords(data, b, header.authorities, Authority, answers).value;
    RecordsAdvance(data, c, header.additionals, Additional, more);
  }

  // ---------- The code ----------

  /** Reads a terminated buffer back as text. */
  method ReadCString(name: array<byte>, ghost text: seq<byte>) returns (result: seq<byte>)
    requires text + [0] <= name[..]
    ensures result == CString(text)
  {
    var length := 0;
    assert text[0..] == text;
    while name[length] != 0
      invariant length <= |text|
      invariant CString(text) == name[..length] + CString(text[length..])
      decreases |text| - length
    {
      assert name[length] == (text + [0])[length];
      assert text[length..][1..] == text[length + 1..];
      length := length + 1;
    }
    assert name[length] == (text + [0])[length];
    result := name[..length];
  }

  method DecodeText(data: seq<byte>, offset: nat) returns (status: Status, text: seq<byte>, next: nat)
    ensures match NameAt(data, offset)
            case Failure(why) => status == why != Ok
            case Success(r) => status == Ok && text == r.0 && next == r.1
  {
    var name := new byte[MAX_NAME];
    text := [];
    status, next := DecodeNameInto(data, offset, name, MAX_NAME);
    if status == Ok {
      ghost var decoded := DecodeName(data, offset, MAX_NAME).text;
      assert name[..MAX_NAME] == name[..];
      text := ReadCString(name, decoded);
    }
  }

  /** parse_txt: validates and counts the strings. */
  method ParseTxt(data: seq<byte>, start: nat, end: nat) returns (status: Status, rdata: RData)
    requires start <= end <= |data|
    ensures match TxtData(data[start..end])
            case Failure(why) => status == why != Ok
            case Success(value) => status == Ok && rdata == value
  {
    rdata := NoData;
    var bytes := data[start..end];
    if |bytes| > MAX_TXT_BYTES {
      return LimitExceeded, rdata;
    }
    var cursor, count := start, 0;
    assert data[start..end] == bytes;
    while cursor < end
      invariant start <= cursor <= end
      invariant TxtStrings(bytes).Some? <==> TxtStrings(data[cursor..end]).Some?
      invariant TxtStrings(bytes).Some? ==> |TxtStrings(bytes).value| == count + |TxtStrings(data[cursor..end]).value|
    {
      ghost var rest := data[cursor..end];
      var length: nat := data[cursor];
      assert rest[0] == length;
      if length > end - (cursor + 1) {
        return Malformed, rdata;
      }
      assert rest[1 + length..] == data[cursor + 1 + length..end];
      cursor := cursor + 1 + length;
      count := count + 1;
    }
    assert |data[cursor..end]| == 0;
    TxtStringsSound(bytes);
    if count > 0xffff {
      return LimitExceeded, rdata;
    }
    return Ok, Txt(bytes, count);
  }

  method ParseQuestionAt(data: seq<byte>, offset: nat) returns (status: Status, question: Question, next: nat)
    ensures match ParseQuestion(data, offset)
            case Failure(why) => status == why != Ok
            case Success(r) => status == Ok && question == r.0 && next == r.1
  {
    question := Question([], 0, 0, false);
    var name;
    status, name, next := DecodeText(data, offset);
    if status != Ok {
      return;
    }
    if |data| - next < 4 {
      return Truncated, question, next;
    }
    var rawClass: u16 := Be16(data[next + 2], data[next + 3]);
    question := Question(name, Be16(data[next], data[next + 1]), WithoutFlush(rawClass), rawClass >= CACHE_FLUSH);
    next := next + 4;
  }

  /** The switch of parse_record. */
  method ParseDataAt(data: seq<byte>, rtype: u16, start: nat, end: nat) returns (status: Status, rdata: RData)
    requires start <= end <= |data|
    ensures match ParseData(data, rtype, start, end)
            case Failure(why) => status == why != Ok
            case Success(value) => status == Ok && rdata == value
  {
    rdata := NoData;
    if rtype == TYPE_A {
      if end - start != 4 {
        return Malformed, rdata;
      }
      return Ok, A(data[start..end]);
    }
    if rtype == TYPE_PTR {
      var target, after;
      status, target, after := DecodeText(data, start);
      if status != Ok {
        return;
      }
      if after != end {
        return Malformed, rdata;
      }
      return Ok, Ptr(target);
    }
    if rtype == TYPE_TXT {
      status, rdata := ParseTxt(data, start, end);
      return;
    }
    if rtype == TYPE_SRV {
      if end - start < 7 {
        return Malformed, rdata;
      }
      var target, after;
      status, target, after := DecodeText(data, start + 6);
      if status != Ok {
        return;
      }
      if after != end {
        return Malformed, rdata;
      }
      return Ok, Srv(Be16(data[start], data[start + 1]), Be16(data[start + 2], data[start + 3]),
                     Be16(data[start + 4], data[start + 5]), target);
    }
    return Ok, rdata;
  }

  method ParseRecordAt(data: seq<byte>, offset: nat, section: Section)
    returns (status: Status, record: Record, next: nat)
    ensures match ParseRecord(data, offset, section)
            case Failure(why) => status == why != Ok
            case Success(r) => status == Ok && record == r.0 && next == r.1
  {
    hide NameAt, ParseData;
    record := Record([], section, 0, 0, false, 0, 0, NoData);
    var owner;
    status, owner, next := DecodeText(data, offset);
    if status != Ok {
      return;
    }
    if |data| - next < 10 {
      return Truncated, record, next;
    }
    var rtype: u16 := Be16(data[next], data[next + 1]);
    var rawClass: u16 := Be16(data[next + 2], data[next + 3]);
    var ttl: u32 := Be32(data[next + 4], data[next + 5], data[next + 6], data[next + 7]);
    var length: u16 := Be16(data[next + 8], data[next + 9]);
    var start := next + 10;
    if length > |data| - start {
      return Truncated, record, next;
    }
    var rdata;
    status, rdata := ParseDataAt(data, rtype, start, start + length);
    if status != Ok {
      return;
    }
    record := Record(owner, section, rtype, WithoutFlush(rawClass), rawClass >= CACHE_FLUSH, ttl, length, rdata);
    next := start + length;
  }

  /** The question loop: past the eighth, questions are parsed into a scratch variable and dropped. */
  method ParseQuestionLoop(data: seq<byte>, declared: nat)
    returns (status: Status, questions: seq<Question>, offset: nat)
    requires |data| >= HEADER_SIZE
    ensures match ParseQuestions(data, HEADER_SIZE, declared, [])
            case Failure(why) => status == why != Ok
            case Success(r) => status == Ok && questions == FirstOf(r.0, MAX_QUESTIONS) && offset == r.1
  {
    hide ParseQuestion;
    offset, questions, status := HEADER_SIZE, [], Ok;
    ghost var all: seq<Question> := [];
    ghost var expected := ParseQuestions(data, HEADER_SIZE, declared, []);
    var i := 0;
    while i < declared
      invariant 0 <= i <= declared
      invariant expected == ParseQuestions(data, offset, declared - i, all)
      invariant status == Ok && questions == FirstOf(all, MAX_QUESTIONS)
    {
      var question;
      status, question, offset := ParseQuestionAt(data, offset);
      if status != Ok {
        return;
      }
      FirstOfSnoc(all, question, MAX_QUESTIONS);
      if |questions| < MAX_QUESTIONS {
        questions := questions + [question];
      }
      all := all + [question];
      i := i + 1;
    }
  }

  /** One section of the record loop: past the thirty-second record, records are parsed and dropped. */
  method ParseSectionLoop(data: seq<byte>, start: nat, declared: nat, section: Section,
                          kept: seq<Record>, ghost before: seq<Record>)
    returns (status: Status, records: seq<Record>, offset: nat)
    requires kept == FirstOf(before, MAX_RECORDS)
    ensures match ParseRecords(data, start, declared, section, before)
            case Failure(why) => status == why != Ok
            case Success(r) => status == Ok && records == FirstOf(r.0, MAX_RECORDS) && offset == r.1
  {
    hide ParseRecord;
    offset, records, status := start, kept, Ok;
    ghost var all := before;
    ghost var expected := ParseRecords(data, start, declared, section, before);
    var i := 0;
    while i < declared
      invariant 0 <= i <= declared
      invariant expected == ParseRecords(data, offset, declared - i, section, all)
      invariant status == Ok && records == FirstOf(all, MAX_RECORDS)
    {
      var record;
      status, record, offset := ParseRecordAt(data, offset, section);
      if status != Ok {
        return;
      }
      FirstOfSnoc(all, record, MAX_RECORDS);
      if |records| < MAX_RECORDS {
        records := records + [record];
      }
      all := all + [record];
      i := i + 1;
    }
  }

  /** mdns_wire_parse_packet: the bounded parser keeps the first 8 questions and 32 records of the unbounded one,
      and accepts and refuses exactly the same packets. */
  method ParsePacket(data: seq<byte>) returns (status: Status, packet: Packet)
    ensures match ParseAll(data)
            case Failure(why) => status == why != Ok
            case Success(r) => status == Ok && packet == Bounded(r.0)
  {
    var header := Header(0, 0, 0, 0, 0, 0);
    packet := Packet(header, [], []);
    if |data| < HEADER_SIZE {
      return Truncated, packet;
    }
    header := HeaderOf(data);
    var questions, offset;
    status, questions, offset := ParseQuestionLoop(data, header.questions);
    if status != Ok {
      return;
    }
    var counts := [header.answers, header.authorities, header.additionals];
    var sections := [Answer, Authority, Additional];
    var records: seq<Record> := [];
    ghost var all: seq<Record> := [];
    var s := 0;
    while s < 3
      invariant 0 <= s <= 3 && status == Ok && records == FirstOf(all, MAX_RECORDS)
      invariant ParseAll(data)
             == AfterSections(data, header, ParseQuestions(data, HEADER_SIZE, header.questions, []).value.0, s, offset,
                              all)
    {
      ghost var before := all;
      ghost var at := offset;
      status, records, offset := ParseSectionLoop(data, offset, counts[s], sections[s], records, all);
      if status != Ok {
        return;
      }
      all := ParseRecords(data, at, counts[s], sections[s], before).value.0;
      s := s + 1;
    }
    return Ok, Packet(header, questions, records);
  }

  /** What the unbounded parser returns once `done` sections are parsed. */
  ghost function AfterSections(data: seq<byte>, header: Header, questions: seq<Question>, done: nat,
                               offset: nat, records: seq<Record>): Result<(Packet, nat)>
    requires done <= 3
    decreases 3 - done
  {
    if done == 3 then Success((Packet(header, questions, records), offset))
    else
      var count := [header.answers, header.authorities, header.additionals][done];
      var section := [Answer, Authority, Additional][done];
      match ParseRecords(data, offset, count, section, records)
      case Failure(status) => Failure(status)
      case Success((more, next)) => AfterSections(data, header, questions, done + 1, next, more)
  }

  /** The string of this index in length-prefixed data that may end early. */
  function TxtNth(bytes: seq<byte>, index: nat): Option<seq<byte>>
    decreases index
  {
    if bytes == [] || bytes[0] > |bytes| - 1 then None
    else if index == 0 then Some(bytes[1..1 + bytes[0]])
    else TxtNth(bytes[1 + bytes[0]..], index - 1)
  }

  /** In data that was accepted, these are the strings that were counted. */
  lemma {:induction false} TxtNthIs(bytes: seq<byte>, index: nat)
    requires TxtStrings(bytes).Some?
    ensures var strings := TxtStrings(bytes).value;
            TxtNth(bytes, index) == if index < |strings| then Some(strings[index]) else None
    decreases index
  {
    if bytes == [] || index == 0 {
    } else {
      var rest := bytes[1 + bytes[0]..];
      TxtNthIs(rest, index - 1);
      assert TxtStrings(bytes).value[1..] == TxtStrings(rest).value;
    }
  }

  /** mdns_wire_txt_at: finds the strings below the count as far as the data goes; for a record that was parsed, exactly
      the strings that were counted. */
  method TxtAt(record: Record, index: nat) returns (found: bool, text: seq<byte>)
    ensures found <==> record.data.Txt? && index < record.data.count && TxtNth(record.data.bytes, index).Some?
    ensures found ==> text == TxtNth(record.data.bytes, index).value
    ensures record.data.Txt? && TxtData(record.data.bytes) == Success(record.data) ==>
      var strings := TxtStrings(record.data.bytes).value;
      (found <==> index < |strings|) && (found ==> text == strings[index])
  {
    hide TxtStrings, TxtNth, TxtData;
    text := [];
    if !record.data.Txt? || index >= record.data.count {
      if record.data.Txt? && TxtData(record.data.bytes) == Success(record.data) { TxtNthParsed(record, index); }
      return false, text;
    }
    var bytes := record.data.bytes;
    if TxtData(bytes) == Success(record.data) { TxtNthParsed(record, index); }
    var offset: nat, current: nat := 0, 0;
    assert bytes[0..] == bytes;
    while current <= index
      invariant current <= index && offset <= |bytes|
      invariant TxtNth(bytes, index) == TxtNth(bytes[offset..], index - current)
      decreases index - current
    {
      TxtNthStep(bytes, offset, index - current);
      if offset >= |bytes| {
        return false, text;
      }
      var length: nat := bytes[offset];
      offset := offset + 1;
      if length > |bytes| - offset {
        return false, text;
      }
      if current == index {
        return true, bytes[offset..offset + length];
      }
      offset := offset + length;
      current := current + 1;
    }
    return false, text;
  }

  /** The walk, one string at a time. */
  lemma TxtNthStep(bytes: seq<byte>, offset: nat, index: nat)
    requires offset <= |bytes|
    ensures TxtNth(bytes[offset..], index) ==
              if offset == |bytes| || bytes[offset] > |bytes| - offset - 1 then None
              else if index == 0 then Some(bytes[offset + 1..offset + 1 + bytes[offset]])
              else TxtNth(bytes[offset + 1 + bytes[offset]..], index - 1)
  {
    var rest := bytes[offset..];
    if offset < |bytes| && bytes[offset] <= |bytes| - offset - 1 {
      assert rest[0] == bytes[offset];
      assert rest[1..1 + rest[0]] == bytes[offset + 1..offset + 1 + bytes[offset]];
      assert rest[1 + rest[0]..] == bytes[offset + 1 + bytes[offset]..];
    }
  }

  lemma TxtNthParsed(record: Record, index: nat)
    requires record.data.Txt? && TxtData(record.data.bytes) == Success(record.data)
    ensures TxtStrings(record.data.bytes).Some?
    ensures var strings := TxtStrings(record.data.bytes).value;
            record.data.count == |strings|
            && TxtNth(record.data.bytes, index) == if index < |strings| then Some(strings[index]) else None
  {
    TxtNthIs(record.data.bytes, index);
  }

  /** Collecting the strings by index gives the record's bytes back. */
  lemma TxtIndexCovers(record: Record)
    requires record.data.Txt? && TxtData(record.data.bytes) == Success(record.data)
    ensures var strings := TxtStrings(record.data.bytes).value;
            && |strings| == record.data.count <= MAX_TXT_BYTES
            && (forall i :: 0 <= i < |strings| ==> |strings[i]| <= 255)
            && TxtBytes(strings) == record.data.bytes
  {
    TxtStringsSound(record.data.bytes);
  }
}
