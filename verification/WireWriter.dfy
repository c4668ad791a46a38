/** The bounds-checked writer, the dotted-name scans and name encoding. */
module WireWriter {
  import opened Options
  import opened WireNames

  // ---------- Abstract state of a writer ----------

  /** Failure is sticky, so a writer holds either everything asked for or nothing of interest. */
  datatype Output = Overflow | Written(bytes: seq<byte>)

  function Fit(bytes: seq<byte>, capacity: nat): Output {
    if |bytes| <= capacity then Written(bytes) else Overflow
  }

  class WireWriter {
    const data: array<byte>
    const capacity: nat
    var offset: nat
    var failed: bool

    ghost predicate Valid()
      reads this
    {
      offset <= capacity <= data.Length
    }

    ghost function View(): Output
      requires Valid()
      reads this, data
    {
      if failed then Overflow else Written(data[..offset])
    }

    constructor (data: array<byte>, capacity: nat, offset: nat)
      requires offset <= capacity <= data.Length
      ensures Valid() && this.data == data && this.capacity == capacity
      ensures View() == Fit(data[..offset], capacity)
    {
      this.data := data;
      this.capacity := capacity;
      this.offset := offset;
      this.failed := false;
    }

    /** writer_bytes: all of `bytes` or a sticky failure; nothing past the capacity moves. */
    method Bytes(bytes: seq<byte>, ghost sofar: seq<byte>)
      requires Valid() && View() == Fit(sofar, capacity)
      modifies this, data
      ensures Valid() && View() == Fit(sofar + bytes, capacity)
      ensures data[capacity..] == old(data[capacity..])
    {
      if failed || |bytes| > capacity - offset {
        failed := true;
        return;
      }
      forall i | 0 <= i < |bytes| {
        data[offset + i] := bytes[i];
      }
      offset := offset + |bytes|;
    }

    /** writer_patch_u16: two bytes anywhere in the buffer, written before or not, or a sticky failure. */
    method PatchU16(at: nat, value: u16)
      requires Valid()
      modifies this, data
      ensures Valid() && offset == old(offset) && failed == (old(failed) || at + 2 > capacity)
      ensures data[..] == if failed then old(data[..]) else old(data[..at]) + U16(value) + old(data[at + 2..])
    {
      if failed || at > capacity || capacity - at < 2 {
        failed := true;
        return;
      }
      data[at] := value / 256;
      data[at + 1] := value % 256;
    }

    method Fail()
      requires Valid()
      modifies this
      ensures Valid() && View() == Overflow && offset == old(offset)
    {
      failed := true;
    }
  }

  // ---------- Scanning dotted names ----------

  /** What a scan that stands at a dot or at the end knows about the piece it has just passed. */
  lemma PieceEnds(name: seq<byte>, start: nat, cursor: nat)
    requires start <= cursor <= |name| && Dotless(name[start..cursor])
    ensures cursor == |name| ==> Split(name[start..]) == [name[start..cursor]]
    ensures cursor < |name| && name[cursor] == DOT ==>
      Split(name[start..]) == [name[start..cursor]] + Split(name[cursor + 1..])
  {
    if cursor == |name| {
      assert name[start..] == name[start..cursor];
      SplitDotless(name[start..cursor]);
    } else if name[cursor] == DOT {
      SplitAtDot(name[start..cursor], name[cursor + 1..]);
      assert name[start..] == name[start..cursor] + [DOT] + name[cursor + 1..];
    }
  }

  /** The pieces of a whole name are its labels, plus an empty one when the name ends in a dot. */
  lemma PiecesAreLabels(name: seq<byte>)
    requires name != [] && name != [DOT]
    ensures Split(name) == if name[|name| - 1] == DOT then Labels(name) + [[]] else Labels(name)
  {
    if name[|name| - 1] == DOT {
      assert WithoutTrailingDot(name) + [DOT] == name;
      SplitTrailingDot(WithoutTrailingDot(name));
    }
  }

  /** The scan stands at `start` with the labels `rest` ahead, and an empty piece after an ending dot. */
  ghost predicate Ahead(name: seq<byte>, rest: seq<Label>, start: nat) {
    && name != [] && start <= |name|
    && Split(name[start..]) == if name[|name| - 1] == DOT then rest + [[]] else rest
  }

  lemma ScanStarts(name: seq<byte>)
    requires name != [] && name != [DOT]
    ensures Ahead(name, Labels(name), 0)
  {
    PiecesAreLabels(name);
    assert name[0..] == name;
  }

  lemma PopPiece(rest: seq<Label>, ending: bool, piece: Label, after: seq<Label>)
    requires [piece] + after == if ending then rest + [[]] else rest
    requires after != []
    ensures rest != [] && rest[0] == piece
    ensures after == if ending then rest[1..] + [[]] else rest[1..]
  {
    assert after == ([piece] + after)[1..];
    assert piece == ([piece] + after)[0];
    assert rest != [];
  }

  /** The scan passes a piece: it is the next label, and the last one if nothing but an ending dot follows. */
  lemma NextLabel(name: seq<byte>, rest: seq<Label>, start: nat, cursor: nat)
    requires Ahead(name, rest, start) && start <= cursor <= |name| && Dotless(name[start..cursor])
    requires cursor < |name| ==> name[cursor] == DOT
    requires start < |name|
    ensures rest != [] && rest[0] == name[start..cursor]
    ensures cursor < |name| ==> Ahead(name, rest[1..], cursor + 1)
    ensures cursor + 1 >= |name| ==> rest[1..] == []
  {
    PieceEnds(name, start, cursor);
    if cursor == |name| {
      assert name[start..cursor][cursor - start - 1] == name[|name| - 1];
    } else {
      var after := Split(name[cursor + 1..]);
      if cursor + 1 == |name| {
        assert |name[cursor + 1..]| == 0;
        assert |after| == 1;
      }
      PopPiece(rest, name[|name| - 1] == DOT, name[start..cursor], after);
    }
  }

  /** The labels ahead keep every limit when `used` bytes are already taken. */
  predicate RestOk(rest: seq<Label>, used: nat): (ok: bool)
    ensures ok ==> used <= MAX_WIRE_NAME
    decreases rest
  {
    if rest == [] then used <= MAX_WIRE_NAME
    else LabelOk(rest[0]) && RestOk(rest[1..], used + 1 + |rest[0]|)
  }

  lemma {:induction false} RestOkMeaning(rest: seq<Label>, used: nat)
    ensures RestOk(rest, used) <==> LabelsOk(rest) && used + BodyLength(rest) <= MAX_WIRE_NAME
    decreases rest
  {
    if rest == [] {
    } else {
      RestOkMeaning(rest[1..], used + 1 + |rest[0]|);
      var first := [rest[0]];
      assert first[0] == rest[0];
      assert rest == first + rest[1..];
      LabelsOkConcat(first, rest[1..]);
      assert LabelsOk(first) <==> LabelOk(first[0]);
    }
  }

  /** The scan's inner part: from the start of a label to the next dot or the end. */
  method FindLabelEnd(name: seq<byte>, start: nat) returns (cursor: nat)
    requires start <= |name|
    ensures start <= cursor <= |name| && Dotless(name[start..cursor])
    ensures cursor < |name| ==> name[cursor] == DOT
  {
    cursor := start;
    while cursor < |name| && name[cursor] != DOT
      invariant start <= cursor <= |name|
      invariant forall k :: start <= k < cursor ==> name[k] != DOT
    {
      cursor := cursor + 1;
    }
  }

  /** dotted_name_valid */
  method DottedNameValid(name: seq<byte>) returns (valid: bool, wireLength: nat)
    ensures valid <==> NameValid(name)
    ensures valid ==> wireLength == WireLength(Labels(name))
  {
    wireLength := 1;
    if name == [] {
      return false, wireLength;
    }
    if name == [DOT] {
      return true, wireLength;
    }
    ScanStarts(name);
    RestOkMeaning(Labels(name), 1);
    valid, wireLength := MeasureLabels(name, Labels(name));
  }

  /** The loop of dotted_name_valid. */
  method MeasureLabels(name: seq<byte>, ghost labels: seq<Label>) returns (valid: bool, wireLength: nat)
    requires name != [] && Ahead(name, labels, 0)
    ensures valid <==> RestOk(labels, 1)
    ensures valid ==> wireLength == WireLength(labels)
  {
    hide Ahead;
    wireLength := 1;
    var start := 0;
    ghost var rest := labels;
    ghost var goal, total := RestOk(labels, 1), WireLength(labels);
    while true
      invariant start <= |name| && Ahead(name, rest, start)
      invariant goal <==> RestOk(rest, wireLength)
      invariant wireLength + BodyLength(rest) == total
      invariant wireLength <= MAX_WIRE_NAME
      invariant start == |name| ==> rest == []
      decreases |name| - start
    {
      var cursor := FindLabelEnd(name, start);
      var length := cursor - start;
      if length == 0 && cursor == |name| {
        return true, wireLength;
      }
      NextLabel(name, rest, start, cursor);
      if length == 0 || length > MAX_LABEL || wireLength > MAX_WIRE_NAME - (length + 1) {
        return false, wireLength;
      }
      wireLength := wireLength + length + 1;
      rest := rest[1..];
      if cursor == |name| {
        return true, wireLength;
      }
      start := cursor + 1;
    }
  }

  /** writer_label: one length byte and the label's bytes, dots included. */
  method WriteLabel(w: WireWriter, text: Label, ghost sofar: seq<byte>)
    requires |text| <= MAX_LABEL
    requires w.Valid() && w.View() == Fit(sofar, w.capacity)
    modifies w, w.data
    ensures w.Valid() && w.View() == Fit(sofar + LengthPrefixed(text), w.capacity)
    ensures w.data[w.capacity..] == old(w.data[w.capacity..])
  {
    w.Bytes([|text|], sofar);
    w.Bytes(text, sofar + [|text|]);
    assert sofar + [|text|] + text == sofar + LengthPrefixed(text);
  }

  /** writer_name: the uncompressed wire form of a valid name, or failure. */
  method WriteName(w: WireWriter, name: seq<byte>, ghost sofar: seq<byte>)
    requires w.Valid() && w.View() == Fit(sofar, w.capacity)
    modifies w, w.data
    ensures w.Valid()
    ensures w.View() == if NameValid(name) then Fit(sofar + EncodeName(Labels(name)), w.capacity) else Overflow
    ensures w.data[w.capacity..] == old(w.data[w.capacity..])
  {
    var valid, _ := DottedNameValid(name);
    if !valid {
      w.Fail();
      return;
    }
    if name == [DOT] {
      w.Bytes([0], sofar);
      return;
    }
    ScanStarts(name);
    WriteLabels(w, name, Labels(name), sofar);
    w.Bytes([0], sofar + EncodeLabels(Labels(name)));
    assert sofar + EncodeLabels(Labels(name)) + [0] == sofar + EncodeName(Labels(name));
  }

  lemma EncodeStep(rest: seq<Label>, text: seq<byte>, total: seq<byte>)
    requires rest != [] && LabelsOk(rest) && text + EncodeLabels(rest) == total
    ensures LabelOk(rest[0]) && LabelsOk(rest[1..])
    ensures text + LengthPrefixed(rest[0]) + EncodeLabels(rest[1..]) == total
  {
    assert rest == [rest[0]] + rest[1..];
    LabelsOkConcat([rest[0]], rest[1..]);
  }

  /** The loop of writer_name. */
  method WriteLabels(w: WireWriter, name: seq<byte>, ghost labels: seq<Label>, ghost sofar: seq<byte>)
    requires name != [] && Ahead(name, labels, 0) && LabelsOk(labels)
    requires w.Valid() && w.View() == Fit(sofar, w.capacity)
    modifies w, w.data
    ensures w.Valid() && w.View() == Fit(sofar + EncodeLabels(labels), w.capacity)
    ensures w.data[w.capacity..] == old(w.data[w.capacity..])
  {
    hide Ahead;
    var start := 0;
    ghost var rest, text := labels, sofar;
    ghost var total := sofar + EncodeLabels(labels);
    while true
      invariant start < |name| && Ahead(name, rest, start) && LabelsOk(rest)
      invariant text + EncodeLabels(rest) == total
      invariant w.Valid() && w.View() == Fit(text, w.capacity)
      invariant w.data[w.capacity..] == old(w.data[w.capacity..])
      decreases |name| - start
    {
      var cursor := FindLabelEnd(name, start);
      NextLabel(name, rest, start, cursor);
      EncodeStep(rest, text, total);
      WriteLabel(w, name[start..cursor], text);
      text := text + LengthPrefixed(rest[0]);
      rest := rest[1..];
      if cursor == |name| {
        break;
      }
      start := cursor + 1;
      if start == |name| {
        break;
      }
    }
    assert text == total;
  }

  /** dotted_prefix_wire_length: where the labels of `name` end on the wire; the root has no such prefix. */
  method DottedPrefixWireLength(name: seq<byte>) returns (ok: bool, length: nat)
    ensures ok <==> NameValid(name) && name != [DOT]
    ensures ok ==> length == BodyLength(Labels(name))
  {
    length := 0;
    var valid, _ := DottedNameValid(name);
    if !valid || name == [DOT] {
      return false, length;
    }
    ScanStarts(name);
    length := PrefixLength(name, Labels(name));
    return true, length;
  }

  /** The loop of dotted_prefix_wire_length. */
  method PrefixLength(name: seq<byte>, ghost labels: seq<Label>) returns (length: nat)
    requires name != [] && Ahead(name, labels, 0) && LabelsOk(labels)
    ensures length == BodyLength(labels)
  {
    hide Ahead;
    length := 0;
    var start := 0;
    ghost var rest := labels;
    while true
      invariant start < |name| && Ahead(name, rest, start) && LabelsOk(rest)
      invariant length + BodyLength(rest) == BodyLength(labels)
      decreases |name| - start
    {
      var cursor := FindLabelEnd(name, start);
      NextLabel(name, rest, start, cursor);
      EncodeStep(rest, [], EncodeLabels(rest));
      var labelLength := cursor - start;
      if labelLength != 0 {
        length := length + 1 + labelLength;
      }
      rest := rest[1..];
      if cursor == |name| {
        break;
      }
      start := cursor + 1;
      if start == |name| {
        break;
      }
    }
  }

  /** mdns_wire_encode_name: success exactly when the computed length fits the room left. */
  method EncodeNameInto(buffer: array<byte>, capacity: nat, offset: nat, name: seq<byte>)
    returns (status: Status, newOffset: nat)
    requires capacity <= buffer.Length
    modifies buffer
    ensures status == InvalidArgument <==> offset > capacity || !NameValid(name)
    ensures status == BufferTooSmall <==>
      offset <= capacity && NameValid(name) && WireLength(Labels(name)) > capacity - offset
    ensures status in {Ok, InvalidArgument, BufferTooSmall}
    ensures status != Ok ==> newOffset == offset
    ensures status == Ok ==>
      && newOffset == offset + WireLength(Labels(name))
      && buffer[..newOffset] == old(buffer[..offset]) + EncodeName(Labels(name))
    ensures buffer[capacity..] == old(buffer[capacity..])
  {
    newOffset := offset;
    var valid, _ := DottedNameValid(name);
    if offset > capacity || !valid {
      return InvalidArgument, offset;
    }
    var w := new WireWriter(buffer, capacity, offset);
    WriteName(w, name, old(buffer[..offset]));
    if w.failed {
      return BufferTooSmall, offset;
    }
    return Ok, w.offset;
  }

  // ---------- Joining names ----------

  function StripTrailingDots(s: seq<byte>): seq<byte> {
    if s != [] && s[|s| - 1] == DOT then StripTrailingDots(s[..|s| - 1]) else s
  }

  function StripLeadingDots(s: seq<byte>): seq<byte> {
    if s != [] && s[0] == DOT then StripLeadingDots(s[1..]) else s
  }

  function JoinedName(prefix: seq<byte>, suffix: seq<byte>): Option<seq<byte>>
  {
    var left, right := StripTrailingDots(prefix), StripTrailingDots(StripLeadingDots(suffix));
    if left == [] || right == [] || |left| + 1 + |right| >= MAX_NAME || !NameValid(left + [DOT] + right) then None
    else Some(left + [DOT] + right)
  }

  /** join_name */
  method JoinName(prefix: seq<byte>, suffix: seq<byte>) returns (joined: Option<seq<byte>>)
    ensures joined == JoinedName(prefix, suffix)
  {
    hide NameValid;
    assert prefix[..|prefix|] == prefix;
    var prefixLength := |prefix|;
    while prefixLength != 0 && prefix[prefixLength - 1] == DOT
      invariant 0 <= prefixLength <= |prefix|
      invariant StripTrailingDots(prefix) == StripTrailingDots(prefix[..prefixLength])
    {
      prefixLength := prefixLength - 1;
      assert prefix[..prefixLength] == prefix[..prefixLength + 1][..prefixLength];
    }
    var suffixStart := 0;
    while suffixStart < |suffix| && suffix[suffixStart] == DOT
      invariant 0 <= suffixStart <= |suffix|
      invariant StripLeadingDots(suffix) == StripLeadingDots(suffix[suffixStart..])
    {
      suffixStart := suffixStart + 1;
      assert suffix[suffixStart..] == suffix[suffixStart - 1..][1..];
    }
    ghost var tail := suffix[suffixStart..];
    var suffixLength := |suffix| - suffixStart;
    assert tail[..suffixLength] == tail;
    while suffixLength != 0 && suffix[suffixStart + suffixLength - 1] == DOT
      invariant 0 <= suffixLength <= |suffix| - suffixStart
      invariant StripTrailingDots(tail) == StripTrailingDots(tail[..suffixLength])
    {
      assert tail[suffixLength - 1] == suffix[suffixStart + suffixLength - 1];
      suffixLength := suffixLength - 1;
      assert tail[..suffixLength] == tail[..suffixLength + 1][..suffixLength];
    }
    assert tail[..suffixLength] == suffix[suffixStart..suffixStart + suffixLength];
    assert suffixLength > 0 ==> tail[..suffixLength][suffixLength - 1] == suffix[suffixStart + suffixLength - 1];
    if prefixLength == 0 || suffixLength == 0 || prefixLength + 1 + suffixLength >= MAX_NAME {
      return None;
    }
    var output := prefix[..prefixLength] + [DOT] + suffix[suffixStart..suffixStart + suffixLength];
    var valid, _ := DottedNameValid(output);
    return if valid then Some(output) else None;
  }
}
