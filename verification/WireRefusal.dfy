/** Why a packet is refused: the first place where a name or a record cannot be read, and the status that says so. */
module WireRefusal {
  import opened Options
  import opened WireNames
  import opened WireDecode
  import opened WireParse
  import opened WireLayout

  // ---------- Names ----------

  /** A place on the way through a name, with the pointers followed and the labels passed so far. */
  datatype Place = Place(at: nat, targets: seq<nat>, labels: seq<Label>)

  /** The next place: behind a label, or where a pointer leads. */
  function Onward(p: seq<byte>, x: Place): Option<Place> {
    if x.at + 1 < |p| && p[x.at] >= 192 then
      var target := (p[x.at] as int - 192) * 256 + p[x.at + 1] as int;
      Some(Place(target, x.targets + [target], x.labels))
    else if x.at < |p| && 1 <= p[x.at] <= 63 && x.at + 1 + p[x.at] as int <= |p| then
      var end := x.at + 1 + p[x.at] as int;
      Some(Place(end, x.targets, x.labels + [p[x.at + 1..end]]))
    else None
  }

  /** What stops a reader here. Pointers lead into the packet, at most 32 times and never twice to the same place; names
      have at most 255 bytes, and leave room for a zero byte in the text. */
  predicate Blocked(p: seq<byte>, x: Place, capacity: nat, status: Status) {
    if x.at >= |p| then status == Truncated
    else
      var first: int := p[x.at];
      if first >= 192 then
        if x.at + 1 >= |p| then status == Truncated
        else
          var target := (first - 192) * 256 + p[x.at + 1] as int;
          status == Malformed && (target >= |p| || |x.targets| >= 32 || target in x.targets)
      else if first >= 64 then status == Malformed
      else if first == 0 then status == LimitExceeded && x.labels == [] && capacity < 2
      else if x.at + 1 + first > |p| then status == Truncated
      else
        var labels := x.labels + [p[x.at + 1..x.at + 1 + first]];
        if WireLength(labels) > 255 then status == Malformed
        else status == LimitExceeded && |Join(labels)| >= capacity
  }

  predicate Clear(p: seq<byte>, x: Place, capacity: nat) {
    forall status :: !Blocked(p, x, capacity, status)
  }

  /** The first obstacle on the way from a place, within this many places. */
  predicate StoppedWithin(p: seq<byte>, x: Place, capacity: nat, places: nat, status: Status)
    decreases places
  {
    || Blocked(p, x, capacity, status)
    || (places > 0 && Clear(p, x, capacity) && Onward(p, x).Some?
        && StoppedWithin(p, Onward(p, x).value, capacity, places - 1, status))
  }

  ghost predicate Stopped(p: seq<byte>, x: Place, capacity: nat, status: Status) {
    exists places: nat :: StoppedWithin(p, x, capacity, places, status)
  }

  ghost predicate NameRefused(p: seq<byte>, at: nat, capacity: nat, status: Status) {
    if capacity == 0 || at > |p| then status == InvalidArgument
    else Stopped(p, Place(at, [], []), capacity, status)
  }

  /** The decoder's progress is at this place. */
  predicate IsAt(s: Progress, x: Place) {
    && s.cursor == x.at && s.visited == x.targets && s.output == Join(x.labels) && s.expanded == WireLength(x.labels)
    && forall i :: 0 <= i < |x.labels| ==> x.labels[i] != []
  }

  lemma {:induction false} JoinOneMore(labels: seq<Label>, text: Label)
    requires forall i :: 0 <= i < |labels| ==> labels[i] != []
    ensures Join(labels + [text]) == AppendLabel(Join(labels), text)
    ensures Join(labels) == [] <==> labels == []
    decreases |labels|
  {
    if labels == [] {
      assert labels + [text] == [text];
    } else {
      var all := labels + [text];
      assert all[1..] == labels[1..] + [text];
      JoinOneMore(labels[1..], text);
      assert Join(all) == labels[0] + [DOT] + Join(all[1..]);
    }
  }

  lemma LengthOneMore(labels: seq<Label>, text: Label)
    ensures WireLength(labels + [text]) == WireLength(labels) + 1 + |text|
  {
    BodyLengthConcat(labels, [text]);
  }

  /** One step of the decoder stops with a status exactly if this blocks the place, and otherwise goes onward. */
  lemma StepStops(p: seq<byte>, s: Progress, x: Place, capacity: nat)
    requires IsAt(s, x) && s.Ready(capacity)
    ensures forall status :: Step(p, s, capacity) == Stop(Failed(status)) <==> Blocked(p, x, capacity, status)
    ensures match Step(p, s, capacity)
            case Stop(result) => result.Decoded? ==> Onward(p, x).None?
            case Continue(t) => Onward(p, x).Some? && IsAt(t, Onward(p, x).value)
  {
    hide Join, WireLength;
    JoinOneMore(x.labels, []);
    if x.at < |p| && 1 <= p[x.at] <= 63 && x.at + 1 + p[x.at] as int <= |p| {
      var text := p[x.at + 1..x.at + 1 + p[x.at] as int];
      JoinOneMore(x.labels, text);
      LengthOneMore(x.labels, text);
    }
  }

  lemma {:induction false} DecodeStops(p: seq<byte>, s: Progress, x: Place, capacity: nat, status: Status)
    requires IsAt(s, x) && s.Ready(capacity)
    ensures DecodeFrom(p, s, capacity) == Failed(status) <==> Stopped(p, x, capacity, status)
    decreases MAX_POINTER_JUMPS - |s.visited|, MAX_WIRE_NAME - s.expanded
  {
    hide Step, Blocked, IsAt, Onward;
    StepStops(p, s, x, capacity);
    match Step(p, s, capacity) {
      case Stop(result) =>
        if result == Failed(status) {
          assert StoppedWithin(p, x, capacity, 0, status);
        } else {
          assert result.Failed? ==> Blocked(p, x, capacity, result.status);
        }
      case Continue(t) =>
        var y := Onward(p, x).value;
        DecodeStops(p, t, y, capacity, status);
        if places: nat :| StoppedWithin(p, y, capacity, places, status) {
          assert StoppedWithin(p, x, capacity, places + 1, status);
        }
        forall places: nat | StoppedWithin(p, x, capacity, places, status)
          ensures Stopped(p, y, capacity, status)
        {
          assert StoppedWithin(p, y, capacity, places - 1, status);
        }
    }
  }

  /** A name is refused with a status exactly if the first obstacle on the way through it has this status. */
  lemma NameRefusedExact(p: seq<byte>, at: nat, capacity: nat, status: Status)
    ensures DecodeName(p, at, capacity) == Failed(status) <==> NameRefused(p, at, capacity, status)
  {
    if capacity > 0 && at < |p| {
      DecodeStops(p, Start(at), Place(at, [], []), capacity, status);
    } else if capacity > 0 && at == |p| {
      NothingThere(p, capacity, status);
    }
  }

  lemma NothingThere(p: seq<byte>, capacity: nat, status: Status)
    ensures Stopped(p, Place(|p|, [], []), capacity, status) <==> status == Truncated
  {
    assert Blocked(p, Place(|p|, [], []), capacity, Truncated);
    assert !Clear(p, Place(|p|, [], []), capacity);
    assert StoppedWithin(p, Place(|p|, [], []), capacity, 0, Truncated);
    forall places: nat | StoppedWithin(p, Place(|p|, [], []), capacity, places, status)
      ensures status == Truncated
    {
    }
  }

  // ---------- Records ----------

  /** A name of a packet with this text ends here, or is refused. */
  lemma NameAtExact(p: seq<byte>, at: nat, status: Status)
    ensures NameAt(p, at) == Failure(status) <==> NameRefused(p, at, 256, status)
    ensures NameAt(p, at).Success? <==> exists text, end: nat :: NameLaid(p, at, text, end)
  {
    hide NameRefused, NameLaid;
    NameRefusedExact(p, at, 256, status);
    if NameAt(p, at).Success? {
      NameExact(p, at, NameAt(p, at).value.0, NameAt(p, at).value.1);
    }
    forall text, end: nat | NameLaid(p, at, text, end)
      ensures NameAt(p, at).Success?
    {
      NameExact(p, at, text, end);
    }
  }

  /** A name that should fill the data up to `end`. */
  ghost predicate NameMisfits(p: seq<byte>, at: nat, end: nat, status: Status) {
    NameRefused(p, at, 256, status)
    || (status == Malformed && exists text, other: nat :: NameLaid(p, at, text, other) && other != end)
  }

  ghost predicate DataRefused(p: seq<byte>, rtype: nat, start: nat, end: nat, status: Status)
    requires start <= end <= |p|
  {
    if rtype == 1 then status == Malformed && end - start != 4
    else if rtype == 12 then NameMisfits(p, start, end, status)
    else if rtype == 16 then
      if end - start > 1024 then status == LimitExceeded
      else status == Malformed && !exists count: nat :: Strings(p[start..end], count)
    else if rtype == 33 then
      if end - start < 7 then status == Malformed else NameMisfits(p, start + 6, end, status)
    else false
  }

  /** A record whose owner cannot be read, which the packet cuts off, or whose data is wrong. */
  ghost predicate RecordRefused(p: seq<byte>, at: nat, status: Status) {
    NameRefused(p, at, 256, status)
    || exists owner, fields: nat :: NameLaid(p, at, owner, fields) && FieldsRefused(p, fields, status)
  }

  /** A big-endian number of two bytes. */
  function Number(p: seq<byte>, at: nat): nat
    requires at + 2 <= |p|
  {
    256 * (p[at] as int) + p[at + 1] as int
  }

  ghost predicate FieldsRefused(p: seq<byte>, fields: nat, status: Status) {
    if fields + 10 > |p| then status == Truncated
    else
      var rtype, length := Number(p, fields), Number(p, fields + 8);
      if fields + 10 + length > |p| then status == Truncated
      else DataRefused(p, rtype, fields + 10, fields + 10 + length, status)
  }

  ghost predicate QuestionRefused(p: seq<byte>, at: nat, status: Status) {
    NameRefused(p, at, 256, status)
    || (status == Truncated && exists name, fields: nat :: NameLaid(p, at, name, fields) && fields + 4 > |p|)
  }

  lemma MisfitExact(p: seq<byte>, at: nat, end: nat, status: Status)
    ensures NameMisfits(p, at, end, status) <==>
              match NameAt(p, at)
              case Failure(why) => status == why
              case Success(r) => status == Malformed && r.1 != end
  {
    hide NameRefused, NameLaid;
    NameAtExact(p, at, status);
    if NameAt(p, at).Success? {
      NameExact(p, at, NameAt(p, at).value.0, NameAt(p, at).value.1);
    }
    forall text, other: nat | NameLaid(p, at, text, other)
      ensures NameAt(p, at) == Success((text, other))
    {
      NameExact(p, at, text, other);
    }
  }

  lemma TxtRefusedExact(bytes: seq<byte>, status: Status)
    ensures TxtData(bytes) == Failure(status) <==>
              if |bytes| > 1024 then status == LimitExceeded
              else status == Malformed && !exists count: nat :: Strings(bytes, count)
  {
    hide TxtStrings, Strings;
    if TxtData(bytes).Success? {
      TxtIs(bytes, TxtData(bytes).value);
    }
    forall count: nat | Strings(bytes, count)
      ensures |bytes| <= 1024 ==> TxtData(bytes).Success?
    {
      TxtIs(bytes, Txt(bytes, count));
    }
  }

  lemma DataRefusedExact(p: seq<byte>, rtype: u16, start: nat, end: nat, status: Status)
    requires start <= end <= |p|
    ensures ParseData(p, rtype, start, end) == Failure(status) <==> DataRefused(p, rtype, start, end, status)
  {
    hide NameAt, NameMisfits, TxtData, Strings, Be16;
    if rtype == 12 {
      MisfitExact(p, start, end, status);
    } else if rtype == 16 {
      TxtRefusedExact(p[start..end], status);
    } else if rtype == 33 && end - start >= 7 {
      MisfitExact(p, start + 6, end, status);
    }
  }

  lemma FieldsRefusedExact(p: seq<byte>, owner: seq<byte>, fields: nat, section: Section, status: Status)
    requires fields <= |p|
    ensures ParseFields(p, owner, fields, section) == Failure(status) <==> FieldsRefused(p, fields, status)
  {
    hide ParseData, DataRefused, Be32;
    if fields + 10 <= |p| {
      var rtype, length := Be16(p[fields], p[fields + 1]), Be16(p[fields + 8], p[fields + 9]);
      assert Number(p, fields) == rtype && Number(p, fields + 8) == length;
      if fields + 10 + length <= |p| { DataRefusedExact(p, rtype, fields + 10, fields + 10 + length, status); }
    }
  }

  /** A record is refused with a status exactly for this reason. */
  lemma RecordRefusedExact(p: seq<byte>, at: nat, section: Section, status: Status)
    ensures ParseRecord(p, at, section) == Failure(status) <==> RecordRefused(p, at, status)
  {
    hide NameAt, NameRefused, NameLaid, ParseFields, FieldsRefused;
    NameAtExact(p, at, status);
    if NameAt(p, at).Success? {
      var (owner, fields) := NameAt(p, at).value;
      NameExact(p, at, owner, fields);
      FieldsRefusedExact(p, owner, fields, section, status);
    }
    forall owner, fields: nat | NameLaid(p, at, owner, fields)
      ensures NameAt(p, at) == Success((owner, fields))
    {
      NameExact(p, at, owner, fields);
    }
  }

  lemma QuestionRefusedExact(p: seq<byte>, at: nat, status: Status)
    ensures ParseQuestion(p, at) == Failure(status) <==> QuestionRefused(p, at, status)
  {
    hide NameAt, NameRefused, NameLaid;
    NameAtExact(p, at, status);
    if NameAt(p, at).Success? {
      NameExact(p, at, NameAt(p, at).value.0, NameAt(p, at).value.1);
    }
    forall name, fields: nat | NameLaid(p, at, name, fields)
      ensures NameAt(p, at) == Success((name, fields))
    {
      NameExact(p, at, name, fields);
    }
  }

  // ---------- Packets ----------

  /** Of so many questions from here on, the first that is refused. */
  ghost predicate QuestionsRefused(p: seq<byte>, at: nat, count: nat, status: Status)
    decreases count
  {
    && count > 0
    && (|| QuestionRefused(p, at, status)
        || exists q, next: nat :: QuestionLaid(p, at, q, next) && QuestionsRefused(p, next, count - 1, status))
  }

  ghost predicate QuestionsEnd(p: seq<byte>, at: nat, count: nat, end: nat)
    decreases count
  {
    if count == 0 then at == end
    else exists q, next: nat :: QuestionLaid(p, at, q, next) && QuestionsEnd(p, next, count - 1, end)
  }

  /** Of so many records from here on, the first that is refused. */
  ghost predicate RecordsRefused(p: seq<byte>, at: nat, count: nat, status: Status)
    decreases count
  {
    && count > 0
    && (|| RecordRefused(p, at, status)
        || exists r, next: nat :: RecordLaid(p, at, r, next) && RecordsRefused(p, next, count - 1, status))
  }

  /** A packet without a whole header, or with a question or a record that is refused: the first of them counts. */
  ghost predicate PacketRefused(p: seq<byte>, status: Status) {
    if |p| < 12 then status == Truncated
    else
      var questions, records := Number(p, 4), Number(p, 6) + Number(p, 8) + Number(p, 10);
      QuestionsRefused(p, 12, questions, status)
      || exists from: nat :: QuestionsEnd(p, 12, questions, from) && RecordsRefused(p, from, records, status)
  }

  lemma {:induction false} QuestionsRefusedExact(p: seq<byte>, at: nat, count: nat, sofar: seq<Question>,
                                                 status: Status)
    ensures ParseQuestions(p, at, count, sofar) == Failure(status) <==> QuestionsRefused(p, at, count, status)
    decreases count
  {
    hide ParseQuestion, QuestionRefused, QuestionLaid;
    if count == 0 {
    } else {
      QuestionRefusedExact(p, at, status);
      if ParseQuestion(p, at).Success? {
        var (q, next) := ParseQuestion(p, at).value;
        QuestionExact(p, at, q, next);
        QuestionsRefusedExact(p, next, count - 1, sofar + [q], status);
      }
      forall q, next: nat | QuestionLaid(p, at, q, next)
        ensures ParseQuestion(p, at) == Success((q, next))
      {
        QuestionExact(p, at, q, next);
      }
    }
  }

  lemma {:induction false} QuestionsEndExact(p: seq<byte>, at: nat, count: nat, sofar: seq<Question>, end: nat)
    ensures QuestionsEnd(p, at, count, end) <==>
              ParseQuestions(p, at, count, sofar).Success? && ParseQuestions(p, at, count, sofar).value.1 == end
    decreases count
  {
    hide ParseQuestion, QuestionLaid;
    if count == 0 {
    } else {
      if ParseQuestion(p, at).Success? {
        var (q, next) := ParseQuestion(p, at).value;
        QuestionExact(p, at, q, next);
        QuestionsEndExact(p, next, count - 1, sofar + [q], end);
      }
      forall q, next: nat | QuestionLaid(p, at, q, next)
        ensures ParseQuestion(p, at) == Success((q, next))
      {
        QuestionExact(p, at, q, next);
      }
    }
  }

  /** How far a section goes, or why it is refused. */
  function Reach(p: seq<byte>, at: nat, count: nat): Result<nat> {
    Extent(ParseRecords(p, at, count, Answer, []))
  }

  function Extent(r: Result<(seq<Record>, nat)>): Result<nat> {
    match r
    case Failure(status) => Failure(status)
    case Success((_, end)) => Success(end)
  }

  /** It depends neither on the section nor on what came before. */
  lemma {:induction false} SameExtent(p: seq<byte>, at: nat, count: nat, section: Section, sofar: seq<Record>,
                                      other: Section, before: seq<Record>)
    ensures Extent(ParseRecords(p, at, count, section, sofar)) == Extent(ParseRecords(p, at, count, other, before))
    decreases count
  {
    hide ParseRecord;
    if count == 0 {
    } else {
      SameRecordExtent(p, at, section, other);
      if ParseRecord(p, at, section).Success? {
        var (r, next) := ParseRecord(p, at, section).value;
        SameExtent(p, next, count - 1, section, sofar + [r], other, before + [ParseRecord(p, at, other).value.0]);
      }
    }
  }

  lemma SameRecordExtent(p: seq<byte>, at: nat, section: Section, other: Section)
    ensures match ParseRecord(p, at, section)
            case Failure(status) => ParseRecord(p, at, other) == Failure(status)
            case Success((r, next)) => ParseRecord(p, at, other) == Success((r.(section := other), next))
  {
    hide NameAt, ParseData, Be16, Be32;
  }

  /** One section after the other is one long section. */
  lemma {:induction false} ReachOn(p: seq<byte>, at: nat, a: nat, b: nat, sofar: seq<Record>)
    ensures Extent(ParseRecords(p, at, a + b, Answer, sofar))
         == match Reach(p, at, a)
            case Failure(status) => Failure(status)
            case Success(end) => Reach(p, end, b)
    decreases a
  {
    hide ParseRecord;
    SameExtent(p, at, a, Answer, sofar, Answer, []);
    SameExtent(p, at, b, Answer, sofar, Answer, []);
    if a == 0 {
    } else if ParseRecord(p, at, Answer).Success? {
      var (r, next) := ParseRecord(p, at, Answer).value;
      ReachOn(p, next, a - 1, b, sofar + [r]);
      SameExtent(p, next, a - 1, Answer, sofar + [r], Answer, []);
    }
  }

  lemma {:induction false} RecordsRefusedExact(p: seq<byte>, at: nat, count: nat, status: Status)
    ensures Reach(p, at, count) == Failure(status) <==> RecordsRefused(p, at, count, status)
    decreases count
  {
    hide ParseRecord, RecordRefused, RecordLaid;
    if count == 0 {
    } else {
      RecordRefusedExact(p, at, Answer, status);
      if ParseRecord(p, at, Answer).Success? {
        var (r, next) := ParseRecord(p, at, Answer).value;
        RecordExact(p, at, Answer, r, next);
        RecordsRefusedExact(p, next, count - 1, status);
        SameExtent(p, next, count - 1, Answer, [] + [r], Answer, []);
        assert Reach(p, at, count) == Reach(p, next, count - 1);
      }
      forall r, next: nat | RecordLaid(p, at, r, next)
        ensures ParseRecord(p, at, Answer).Success? && ParseRecord(p, at, Answer).value.1 == next
      {
        RecordExact(p, at, r.section, r, next);
        SameRecordExtent(p, at, r.section, Answer);
      }
    }
  }

  /** The parser refuses a packet with a status exactly if the first of its parts that cannot be read has it. */
  lemma PacketRefusedExact(p: seq<byte>, status: Status)
    ensures ParseAll(p) == Failure(status) <==> PacketRefused(p, status)
  {
    hide ParseAll, PacketRefused;
    if |p| >= 12 {
      ReadingStops(p, status);
      PartsRefused(p, status);
    } else {
      NoHeader(p, status);
    }
  }

  lemma NoHeader(p: seq<byte>, status: Status)
    requires |p| < 12
    ensures ParseAll(p) == Failure(Truncated) && (PacketRefused(p, status) <==> status == Truncated)
  {
  }

  /** The three sections as the parser reads them. */
  function Sections(p: seq<byte>, from: nat, h: Header): Result<(seq<Record>, nat)> {
    var (answers, a) :- ParseRecords(p, from, h.answers, Answer, []);
    var (more, b) :- ParseRecords(p, a, h.authorities, Authority, answers);
    ParseRecords(p, b, h.additionals, Additional, more)
  }

  /** Reading stops in the questions, or behind them in the records. */
  predicate Stops(p: seq<byte>, status: Status)
    requires |p| >= 12
  {
    var h := HeaderOf(p);
    match ParseQuestions(p, 12, h.questions, [])
    case Failure(why) => why == status
    case Success((_, from)) => Sections(p, from, h) == Failure(status)
  }

  lemma ReadingStops(p: seq<byte>, status: Status)
    requires |p| >= 12
    ensures ParseAll(p) == Failure(status) <==> Stops(p, status)
  {
    hide ParseQuestions, ParseRecords, HeaderOf;
  }

  lemma PartsRefused(p: seq<byte>, status: Status)
    requires |p| >= 12
    ensures PacketRefused(p, status) <==> Stops(p, status)
  {
    hide ParseQuestions, QuestionsRefused, RecordsRefused, QuestionsEnd, HeaderOf, Sections, Number;
    var h := HeaderOf(p);
    NumbersAre(p);
    QuestionsRefusedExact(p, 12, h.questions, [], status);
    if ParseQuestions(p, 12, h.questions, []).Success? {
      var from := ParseQuestions(p, 12, h.questions, []).value.1;
      QuestionsEndExact(p, 12, h.questions, [], from);
      SectionsReach(p, from, h, status);
    }
    forall from: nat | QuestionsEnd(p, 12, h.questions, from)
      ensures ParseQuestions(p, 12, h.questions, []).Success? && ParseQuestions(p, 12, h.questions, []).value.1 == from
    {
      QuestionsEndExact(p, 12, h.questions, [], from);
    }
  }

  lemma NumbersAre(p: seq<byte>)
    requires |p| >= 12
    ensures var h := HeaderOf(p);
            && Number(p, 4) == h.questions && Number(p, 6) == h.answers && Number(p, 8) == h.authorities
            && Number(p, 10) == h.additionals
  {
  }

  lemma SectionsReach(p: seq<byte>, from: nat, h: Header, status: Status)
    ensures Sections(p, from, h) == Failure(status) <==>
              RecordsRefused(p, from, h.answers + h.authorities + h.additionals, status)
  {
    hide ParseRecords, RecordsRefused;
    RecordsRefusedExact(p, from, h.answers + h.authorities + h.additionals, status);
    ReachOn(p, from, h.answers + h.authorities, h.additionals, []);
    ReachOn(p, from, h.answers, h.authorities, []);
    var first := ParseRecords(p, from, h.answers, Answer, []);
    if first.Success? {
      var (answers, a) := first.value;
      SameExtent(p, a, h.authorities, Authority, answers, Answer, []);
      var second := ParseRecords(p, a, h.authorities, Authority, answers);
      if second.Success? {
        SameExtent(p, second.value.1, h.additionals, Additional, second.value.0, Answer, []);
      }
    }
  }
}
