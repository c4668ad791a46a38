/** Decoding of possibly compressed names, against the expansion relation of section 4.1.4 of RFC 1035. */
module WireDecode {
  import opened Options
  import opened WireNames

  const MAX_POINTER_JUMPS := 32

  datatype NameResult = Decoded(text: seq<byte>, next: nat) | Failed(status: Status)

  // ---------- The declarative relation ----------

  /** The shape of a finite expansion: a chain of labels and pointers down to a root byte. */
  datatype Expansion = Root | Literal(tail: Expansion) | Pointer(tail: Expansion)
  {
    function Jumps(): nat {
      match this
      case Root => 0
      case Literal(tail) => tail.Jumps()
      case Pointer(tail) => 1 + tail.Jumps()
    }

    function Depth(): nat {
      match this
      case Root => 0
      case Literal(tail) => 1 + tail.Depth()
      case Pointer(tail) => 1 + tail.Depth()
    }
  }

  /** Both top bits set: 0xc0 in the mask test of the source. */
  predicate IsPointer(first: byte) {
    first >= 0xc0
  }

  /** The 14 low bits of a pointer. */
  function Target(first: byte, second: byte): nat
    requires IsPointer(first)
  {
    (first - 0xc0) * 256 + second
  }

  /** The name at `at` expands along `e`: lengths, pointer targets and the root byte are all inside the packet. */
  ghost predicate Expands(packet: seq<byte>, at: nat, e: Expansion)
    decreases e
  {
    match e
    case Root => at < |packet| && packet[at] == 0
    case Literal(tail) =>
      && at < |packet| && 1 <= packet[at] < 64
      && at + 1 + packet[at] <= |packet|
      && Expands(packet, at + 1 + packet[at], tail)
    case Pointer(tail) =>
      && at + 1 < |packet| && IsPointer(packet[at])
      && Target(packet[at], packet[at + 1]) < |packet|
      && Expands(packet, Target(packet[at], packet[at + 1]), tail)
  }

  /** The labels met along an expansion. */
  ghost function ExpandedLabels(packet: seq<byte>, at: nat, e: Expansion): (labels: seq<Label>)
    requires Expands(packet, at, e)
    decreases e
  {
    match e
    case Root => []
    case Literal(tail) =>
      [packet[at + 1..at + 1 + packet[at]]] + ExpandedLabels(packet, at + 1 + packet[at], tail)
    case Pointer(tail) => ExpandedLabels(packet, Target(packet[at], packet[at + 1]), tail)
  }

  /** End of the part stored in place: after the first pointer, or after the root byte. */
  ghost function InPlaceEnd(packet: seq<byte>, at: nat, e: Expansion): nat
    requires Expands(packet, at, e)
    decreases e
  {
    match e
    case Root => at + 1
    case Literal(tail) => InPlaceEnd(packet, at + 1 + packet[at], tail)
    case Pointer(_) => at + 2
  }

  /** The expansion respects every limit of the decoder. */
  ghost predicate WithinLimits(packet: seq<byte>, at: nat, e: Expansion, capacity: nat)
    requires Expands(packet, at, e)
  {
    var labels := ExpandedLabels(packet, at, e);
    && e.Jumps() <= MAX_POINTER_JUMPS
    && WireLength(labels) <= MAX_WIRE_NAME
    && |DisplayText(labels)| + 1 <= capacity
  }

  // ---------- The decoder's specification ----------

  /** Output text after one more label; the separator precedes every label but the first. */
  function AppendLabel(output: seq<byte>, text: Label): seq<byte> {
    if output == [] then text else output + [DOT] + text
  }

  /** The decoder's loop variables. `next` is the caller's new offset once a pointer was taken. */
  datatype Progress = Progress(cursor: nat, visited: seq<nat>, output: seq<byte>, expanded: nat, next: nat,
                               jumped: bool)
  {
    predicate Ready(capacity: nat) {
      |visited| <= MAX_POINTER_JUMPS && 1 <= expanded <= MAX_WIRE_NAME && |output| < capacity
    }

    /** The caller's offset if the part before `end` is stored in place. */
    function NextOffset(end: nat): nat {
      if jumped then next else end
    }
  }

  datatype StepResult = Continue(progress: Progress) | Stop(result: NameResult)

  function StepPointer(packet: seq<byte>, s: Progress): (r: StepResult)
    requires s.cursor < |packet| && IsPointer(packet[s.cursor])
  {
    if |packet| - s.cursor < 2 then Stop(Failed(Truncated))
    else
      var target := Target(packet[s.cursor], packet[s.cursor + 1]);
      if target >= |packet| || |s.visited| == MAX_POINTER_JUMPS || target in s.visited then Stop(Failed(Malformed))
      else Continue(Progress(target, s.visited + [target], s.output, s.expanded, s.NextOffset(s.cursor + 2), true))
  }

  function StepLabel(packet: seq<byte>, s: Progress, capacity: nat): (r: StepResult)
    requires s.cursor < |packet| && 1 <= packet[s.cursor] < 64
  {
    var after := s.cursor + 1 + packet[s.cursor];
    if after > |packet| then Stop(Failed(Truncated))
    else if s.expanded + packet[s.cursor] + 1 > MAX_WIRE_NAME then Stop(Failed(Malformed))
    else
      var text := AppendLabel(s.output, packet[s.cursor + 1..after]);
      if |text| >= capacity then Stop(Failed(LimitExceeded))
      else Continue(Progress(after, s.visited, text, s.expanded + packet[s.cursor] + 1, s.NextOffset(after), s.jumped))
  }

  function StepRoot(s: Progress, capacity: nat): (r: StepResult)
  {
    if s.output == [] && capacity < 2 then Stop(Failed(LimitExceeded))
    else Stop(Decoded(if s.output == [] then [DOT] else s.output, s.NextOffset(s.cursor + 1)))
  }

  function Step(packet: seq<byte>, s: Progress, capacity: nat): (r: StepResult)
    requires s.Ready(capacity)
    ensures r.Continue? ==> r.progress.Ready(capacity)
    ensures r.Continue? ==>
      |r.progress.visited| > |s.visited| || (r.progress.visited == s.visited && r.progress.expanded > s.expanded)
  {
    if s.cursor >= |packet| then Stop(Failed(Truncated))
    else if IsPointer(packet[s.cursor]) then StepPointer(packet, s)
    else if packet[s.cursor] >= 64 then Stop(Failed(Malformed))
    else if packet[s.cursor] == 0 then StepRoot(s, capacity)
    else StepLabel(packet, s, capacity)
  }

  /** The decoding loop as a recursion. The measure, remaining jumps then remaining expanded length,
      decreases on every packet, cyclic ones too. */
  function DecodeFrom(packet: seq<byte>, s: Progress, capacity: nat): NameResult
    requires s.Ready(capacity)
    decreases MAX_POINTER_JUMPS - |s.visited|, MAX_WIRE_NAME - s.expanded
  {
    match Step(packet, s, capacity)
    case Stop(result) => result
    case Continue(progress) => DecodeFrom(packet, progress, capacity)
  }

  function Start(offset: nat): Progress {
    Progress(offset, [], [], 1, offset, false)
  }

  function DecodeName(packet: seq<byte>, offset: nat, capacity: nat): NameResult
  {
    if capacity == 0 || offset > |packet| then Failed(InvalidArgument)
    else if offset == |packet| then Failed(Truncated)
    else DecodeFrom(packet, Start(offset), capacity)
  }

  // ---------- Soundness ----------

  /** The text after appending all labels. */
  function Extend(output: seq<byte>, labels: seq<Label>): seq<byte>
    decreases labels
  {
    if labels == [] then output else Extend(AppendLabel(output, labels[0]), labels[1..])
  }

  lemma {:induction false} ExtendGrows(output: seq<byte>, labels: seq<Label>)
    ensures |Extend(output, labels)| >= |output|
    decreases labels
  {
    if labels == [] {
    } else {
      ExtendGrows(AppendLabel(output, labels[0]), labels[1..]);
    }
  }

  lemma {:induction false} ExtendNonempty(output: seq<byte>, labels: seq<Label>)
    requires output != [] && labels != []
    ensures Extend(output, labels) == output + [DOT] + Join(labels)
    decreases labels
  {
    var text := AppendLabel(output, labels[0]);
    if |labels| > 1 {
      ExtendNonempty(text, labels[1..]);
      assert output + [DOT] + labels[0] + [DOT] + Join(labels[1..]) == output + [DOT] + Join(labels);
    } else {
      assert labels[1..] == [];
    }
  }

  lemma ExtendEmpty(labels: seq<Label>)
    requires LabelsOk(labels) && labels != []
    ensures Extend([], labels) == Join(labels) != []
  {
    assert LabelOk(labels[0]);
    if |labels| > 1 {
      ExtendNonempty(labels[0], labels[1..]);
    } else {
      assert labels[1..] == [];
    }
  }

  lemma {:induction false} ExpandedLabelsOk(packet: seq<byte>, at: nat, e: Expansion)
    requires Expands(packet, at, e)
    ensures LabelsOk(ExpandedLabels(packet, at, e))
    decreases e
  {
    match e
    case Root =>
    case Literal(tail) =>
      ExpandedLabelsOk(packet, at + 1 + packet[at], tail);
      LabelsOkConcat([packet[at + 1..at + 1 + packet[at]]], ExpandedLabels(packet, at + 1 + packet[at], tail));
    case Pointer(tail) => ExpandedLabelsOk(packet, Target(packet[at], packet[at + 1]), tail);
  }

  lemma LiteralUnfolds(packet: seq<byte>, at: nat, tail: Expansion, output: seq<byte>)
    requires Expands(packet, at, Literal(tail))
    ensures var after := at + 1 + packet[at];
            var labels := ExpandedLabels(packet, at, Literal(tail));
            var rest := ExpandedLabels(packet, after, tail);
            && BodyLength(labels) == 1 + packet[at] + BodyLength(rest)
            && Extend(output, labels) == Extend(AppendLabel(output, packet[at + 1..after]), rest)
            && |Extend(output, labels)| >= |AppendLabel(output, packet[at + 1..after])|
  {
    var after := at + 1 + packet[at];
    var labels := ExpandedLabels(packet, at, Literal(tail));
    assert labels[1..] == ExpandedLabels(packet, after, tail);
    ExtendGrows(AppendLabel(output, packet[at + 1..after]), labels[1..]);
  }

  lemma RootUnfolds(packet: seq<byte>, at: nat, output: seq<byte>)
    requires Expands(packet, at, Root)
    ensures InPlaceEnd(packet, at, Root) == at + 1
    ensures BodyLength(ExpandedLabels(packet, at, Root)) == 0
    ensures Extend(output, ExpandedLabels(packet, at, Root)) == output
  {
  }

  lemma PointerUnfolds(packet: seq<byte>, at: nat, tail: Expansion)
    requires Expands(packet, at, Pointer(tail))
    ensures ExpandedLabels(packet, at, Pointer(tail))
         == ExpandedLabels(packet, Target(packet[at], packet[at + 1]), tail)
    ensures InPlaceEnd(packet, at, Pointer(tail)) == at + 2
  {
  }

  /** Every successful run of the loop followed a finite expansion. */
  lemma {:induction false} DecodeFromSound(packet: seq<byte>, s: Progress, capacity: nat) returns (e: Expansion)
    requires s.Ready(capacity)
    requires DecodeFrom(packet, s, capacity).Decoded?
    ensures Expands(packet, s.cursor, e)
    ensures |s.visited| + e.Jumps() <= MAX_POINTER_JUMPS
    ensures s.expanded + BodyLength(ExpandedLabels(packet, s.cursor, e)) <= MAX_WIRE_NAME
    ensures var r := DecodeFrom(packet, s, capacity);
            var text := Extend(s.output, ExpandedLabels(packet, s.cursor, e));
            && r.text == (if text == [] then [DOT] else text)
            && |r.text| < capacity
            && r.next == s.NextOffset(InPlaceEnd(packet, s.cursor, e))
    decreases MAX_POINTER_JUMPS - |s.visited|, MAX_WIRE_NAME - s.expanded
  {
    hide ExpandedLabels, Extend, BodyLength, AppendLabel;
    match Step(packet, s, capacity)
    case Stop(_) =>
      e := Root;
      RootUnfolds(packet, s.cursor, s.output);
    case Continue(progress) =>
      var tail := DecodeFromSound(packet, progress, capacity);
      if IsPointer(packet[s.cursor]) {
        e := Pointer(tail);
        PointerUnfolds(packet, s.cursor, tail);
      } else {
        e := Literal(tail);
        LiteralUnfolds(packet, s.cursor, tail, s.output);
      }
  }

  // ---------- Completeness ----------

  /** At most one expansion starts at an offset. */
  lemma {:induction false} ExpansionUnique(packet: seq<byte>, at: nat, e: Expansion, f: Expansion)
    requires Expands(packet, at, e) && Expands(packet, at, f)
    ensures e == f
    decreases e
  {
    match e
    case Root =>
    case Literal(tail) => ExpansionUnique(packet, at + 1 + packet[at], tail, f.tail);
    case Pointer(tail) => ExpansionUnique(packet, Target(packet[at], packet[at + 1]), tail, f.tail);
  }

  /** Targets of the pointers taken along an expansion, in order. */
  ghost function Targets(packet: seq<byte>, at: nat, e: Expansion): set<nat>
    requires Expands(packet, at, e)
    decreases e
  {
    match e
    case Root => {}
    case Literal(tail) => Targets(packet, at + 1 + packet[at], tail)
    case Pointer(tail) =>
      var target := Target(packet[at], packet[at + 1]);
      {target} + Targets(packet, target, tail)
  }

  lemma {:induction false} TargetExpandsBelow(packet: seq<byte>, at: nat, e: Expansion, t: nat)
    returns (f: Expansion)
    requires Expands(packet, at, e) && t in Targets(packet, at, e)
    ensures Expands(packet, t, f) && f.Depth() < e.Depth()
    decreases e
  {
    match e
    case Root => assert false;
    case Literal(tail) => f := TargetExpandsBelow(packet, at + 1 + packet[at], tail, t);
    case Pointer(tail) =>
      var target := Target(packet[at], packet[at + 1]);
      if t == target {
        f := tail;
      } else {
        f := TargetExpandsBelow(packet, target, tail, t);
      }
  }

  /** A finite expansion never returns to a position it came through: the visited list cannot reject it. */
  lemma NeverRevisited(packet: seq<byte>, at: nat, e: Expansion)
    requires Expands(packet, at, e)
    ensures at !in Targets(packet, at, e)
  {
    if at in Targets(packet, at, e) {
      var f := TargetExpandsBelow(packet, at, e, at);
      ExpansionUnique(packet, at, e, f);
    }
  }

  /** An expansion within the limits is decoded from any point on the way, if it meets no target that was visited
      before. */
  lemma {:induction false} DecodeFromComplete(packet: seq<byte>, s: Progress, capacity: nat, e: Expansion)
    requires s.Ready(capacity)
    requires Expands(packet, s.cursor, e)
    requires |s.visited| + e.Jumps() <= MAX_POINTER_JUMPS
    requires s.expanded + BodyLength(ExpandedLabels(packet, s.cursor, e)) <= MAX_WIRE_NAME
    requires |Extend(s.output, ExpandedLabels(packet, s.cursor, e))| < capacity
    requires Extend(s.output, ExpandedLabels(packet, s.cursor, e)) == [] ==> 2 <= capacity
    requires forall t :: t in s.visited ==> t !in Targets(packet, s.cursor, e)
    ensures DecodeFrom(packet, s, capacity).Decoded?
    decreases e
  {
    hide ExpandedLabels, Extend, BodyLength, AppendLabel;
    match e
    case Root => RootUnfolds(packet, s.cursor, s.output);
    case Literal(tail) =>
      LiteralUnfolds(packet, s.cursor, tail, s.output);
      DecodeFromComplete(packet, Step(packet, s, capacity).progress, capacity, tail);
    case Pointer(tail) =>
      PointerUnfolds(packet, s.cursor, tail);
      NeverRevisited(packet, Target(packet[s.cursor], packet[s.cursor + 1]), tail);
      DecodeFromComplete(packet, Step(packet, s, capacity).progress, capacity, tail);
  }

  /** Whoever expands within the limits is decoded, to exactly its labels and its in-place end. */
  lemma DecodeComplete(packet: seq<byte>, offset: nat, capacity: nat, e: Expansion)
    requires Expands(packet, offset, e) && WithinLimits(packet, offset, e, capacity)
    ensures DecodeName(packet, offset, capacity)
         == Decoded(DisplayText(ExpandedLabels(packet, offset, e)), InPlaceEnd(packet, offset, e))
  {
    var labels := ExpandedLabels(packet, offset, e);
    assert offset < |packet| by {
      assert e.Root? || e.Literal? || e.Pointer?;
    }
    ExpandedLabelsOk(packet, offset, e);
    if labels != [] { ExtendEmpty(labels); }
    DecodeFromComplete(packet, Start(offset), capacity, e);
    var f := DecodeFromSound(packet, Start(offset), capacity);
    ExpansionUnique(packet, offset, e, f);
  }

  /** A finite expansion of the name at `offset` within the limits, with this text and the end of its in-place part. */
  ghost predicate ExpandsTo(packet: seq<byte>, offset: nat, capacity: nat, e: Expansion, text: seq<byte>, next: nat) {
    && Expands(packet, offset, e) && WithinLimits(packet, offset, e, capacity)
    && text == DisplayText(ExpandedLabels(packet, offset, e)) && next == InPlaceEnd(packet, offset, e)
  }

  /** The decoder returns a text and an end exactly if the name has a finite expansion inside the packet with that
      text and that end, with at most 32 jumps, at most 255 expanded bytes and room for the text and its
      terminator. */
  lemma DecodeIff(packet: seq<byte>, offset: nat, capacity: nat, text: seq<byte>, next: nat)
    ensures DecodeName(packet, offset, capacity) == Decoded(text, next)
       <==> exists e :: ExpandsTo(packet, offset, capacity, e, text, next)
  {
    if DecodeName(packet, offset, capacity) == Decoded(text, next) {
      var e := DecodeFromSound(packet, Start(offset), capacity);
      var labels := ExpandedLabels(packet, offset, e);
      ExpandedLabelsOk(packet, offset, e);
      if labels != [] { ExtendEmpty(labels); }
      assert Expands(packet, offset, e) && WithinLimits(packet, offset, e, capacity);
      DecodeComplete(packet, offset, capacity, e);
      assert ExpandsTo(packet, offset, capacity, e, text, next);
    }
    forall e | ExpandsTo(packet, offset, capacity, e, text, next)
      ensures DecodeName(packet, offset, capacity) == Decoded(text, next)
    {
      DecodeComplete(packet, offset, capacity, e);
    }
  }

  lemma {:induction false} InPlaceEndBounds(packet: seq<byte>, at: nat, e: Expansion)
    requires Expands(packet, at, e)
    ensures at < InPlaceEnd(packet, at, e) <= |packet|
    decreases e
  {
    match e
    case Root =>
    case Literal(tail) => InPlaceEndBounds(packet, at + 1 + packet[at], tail);
    case Pointer(_) =>
  }

  /** A decoded name moves the offset forward, inside the packet, and always fits the caller's buffer. */
  lemma DecodeAdvances(packet: seq<byte>, offset: nat, capacity: nat)
    requires DecodeName(packet, offset, capacity).Decoded?
    ensures offset < DecodeName(packet, offset, capacity).next <= |packet|
    ensures |DecodeName(packet, offset, capacity).text| < capacity
  {
    var e := DecodeFromSound(packet, Start(offset), capacity);
    InPlaceEndBounds(packet, offset, e);
  }

  /** Where one label or one pointer leads; nothing at a root byte, a reserved byte or past the end. */
  function Hop(packet: seq<byte>, at: nat): Option<nat>
  {
    if at >= |packet| then None
    else if IsPointer(packet[at]) then
      if at + 1 < |packet| then Some(Target(packet[at], packet[at + 1])) else None
    else if 1 <= packet[at] < 64 then Some(at + 1 + packet[at])
    else None
  }

  function Walk(packet: seq<byte>, at: nat, hops: nat): Option<nat>
    decreases hops
  {
    if hops == 0 then Some(at)
    else match Hop(packet, at)
         case None => None
         case Some(there) => Walk(packet, there, hops - 1)
  }

  lemma {:induction false} WalkDescends(packet: seq<byte>, at: nat, e: Expansion, hops: nat, there: nat)
    returns (f: Expansion)
    requires Expands(packet, at, e) && Walk(packet, at, hops) == Some(there)
    ensures Expands(packet, there, f) && f.Depth() + hops == e.Depth()
    decreases hops
  {
    f := e;
    if hops == 0 {
    } else {
      var next := Hop(packet, at).value;
      assert !e.Root?;
      assert Expands(packet, next, e.tail);
      f := WalkDescends(packet, next, e.tail, hops - 1, there);
    }
  }

  /** A name that runs into a cycle of labels and pointers is refused, whatever the capacity. */
  lemma CycleRefused(packet: seq<byte>, offset: nat, capacity: nat, lead: nat, there: nat, cycle: nat)
    requires Walk(packet, offset, lead) == Some(there)
    requires cycle >= 1 && Walk(packet, there, cycle) == Some(there)
    ensures DecodeName(packet, offset, capacity).Failed?
  {
    if DecodeName(packet, offset, capacity).Decoded? {
      var e := DecodeFromSound(packet, Start(offset), capacity);
      var f := WalkDescends(packet, offset, e, lead, there);
      var g := WalkDescends(packet, there, f, cycle, there);
      ExpansionUnique(packet, there, f, g);
    }
  }

  // ---------- The loop ----------

  /** What a caller sees of a result: status, offset (moved only on success) and the terminated text. */
  ghost predicate Reports(result: NameResult, status: Status, offset: nat, newOffset: nat, name: seq<byte>)
  {
    match result
    case Failed(why) => status == why != Ok && newOffset == offset
    case Decoded(text, next) => status == Ok && newOffset == next && text + [0] <= name
  }

  /** Decodes into a caller's buffer of `capacity` bytes; the offset is returned rather than written through. */
  method DecodeNameInto(packet: seq<byte>, offset: nat, name: array<byte>, capacity: nat)
    returns (status: Status, newOffset: nat)
    requires capacity <= name.Length
    modifies name
    ensures name[capacity..] == old(name[capacity..])
    ensures Reports(DecodeName(packet, offset, capacity), status, offset, newOffset, name[..capacity])
  {
    if capacity == 0 || offset > |packet| {
      return InvalidArgument, offset;
    }
    if offset == |packet| {
      return Truncated, offset;
    }
    var cursor: nat, nextOffset: nat, outputLength: nat, expanded: nat := offset, offset, 0, 1;
    var visited: seq<nat>, jumped := [], false;
    ghost var progress := Start(offset);
    while true
      invariant outputLength < capacity
      invariant name[capacity..] == old(name[capacity..])
      invariant progress == Progress(cursor, visited, name[..outputLength], expanded, nextOffset, jumped)
      invariant progress.Ready(capacity)
      invariant DecodeName(packet, offset, capacity) == DecodeFrom(packet, progress, capacity)
      decreases MAX_POINTER_JUMPS - |visited|, MAX_WIRE_NAME - expanded
    {
      ghost var step := Step(packet, progress, capacity);
      var done: bool;
      if cursor < |packet| && IsPointer(packet[cursor]) {
        var target: nat;
        status, target := ReadPointer(packet, cursor, visited);
        if status != Ok {
          return status, offset;
        }
        visited := visited + [target];
        nextOffset := if jumped then nextOffset else cursor + 2;
        cursor, jumped := target, true;
      } else {
        done, status, cursor, outputLength, expanded :=
          ReadLabel(packet, progress, cursor, expanded, name, outputLength, capacity);
        if done && status != Ok {
          return status, offset;
        }
        nextOffset := if jumped then nextOffset else cursor;
        if done {
          return Ok, nextOffset;
        }
      }
      progress := step.progress;
    }
  }

  /** One label at `cursor` that is not a pointer: the root byte ends the name, a label is copied out. */
  method ReadLabel(packet: seq<byte>, ghost s: Progress, cursor: nat, expanded: nat,
                   name: array<byte>, outputLength: nat, capacity: nat)
    returns (done: bool, status: Status, newCursor: nat, newLength: nat, newExpanded: nat)
    requires outputLength < capacity <= name.Length
    requires s.Ready(capacity) && s.cursor == cursor && s.output == name[..outputLength] && s.expanded == expanded
    requires cursor < |packet| ==> !IsPointer(packet[cursor])
    modifies name
    ensures name[capacity..] == old(name[capacity..])
    ensures match Step(packet, s, capacity)
            case Stop(Failed(why)) => done && status == why != Ok
            case Stop(Decoded(text, next)) =>
              done && status == Ok && next == s.NextOffset(newCursor) && text + [0] <= name[..capacity]
            case Continue(p) =>
              && !done && newLength < capacity
              && p == Progress(newCursor, s.visited, name[..newLength], newExpanded, s.NextOffset(newCursor), s.jumped)
  {
    done, newCursor, newLength, newExpanded := true, cursor, outputLength, expanded;
    if cursor >= |packet| {
      status := Truncated;
      return;
    }
    var labelLength: nat := packet[cursor];
    if labelLength >= 64 {
      status := Malformed;
      return;
    }
    newCursor := cursor + 1;
    if labelLength == 0 {
      var fits := Terminate(name, outputLength, capacity);
      status := if fits then Ok else LimitExceeded;
      return;
    }
    if labelLength > |packet| - newCursor {
      status := Truncated;
      return;
    }
    if expanded > MAX_WIRE_NAME - (labelLength + 1) {
      status := Malformed;
      return;
    }
    newExpanded := expanded + labelLength + 1;
    var longer := CopyLabel(packet, newCursor, labelLength, name, outputLength, capacity);
    if longer == outputLength {
      status := LimitExceeded;
      return;
    }
    done, status, newLength, newCursor := false, Ok, longer, newCursor + labelLength;
  }

  /** The target of the pointer at `cursor`, unless it is cut off, outside, one too many or already visited. */
  method ReadPointer(packet: seq<byte>, cursor: nat, visited: seq<nat>)
    returns (status: Status, target: nat)
    requires cursor < |packet| && IsPointer(packet[cursor])
    ensures status == Truncated <==> cursor + 1 == |packet|
    ensures cursor + 1 < |packet| ==>
      && target == Target(packet[cursor], packet[cursor + 1])
      && status == if target >= |packet| || |visited| == MAX_POINTER_JUMPS || target in visited then Malformed else Ok
  {
    target := 0;
    if |packet| - cursor < 2 {
      return Truncated, target;
    }
    target := Target(packet[cursor], packet[cursor + 1]);
    if target >= |packet| || |visited| == MAX_POINTER_JUMPS {
      return Malformed, target;
    }
    var i := 0;
    while i < |visited|
      invariant i <= |visited| && target !in visited[..i]
    {
      if visited[i] == target {
        return Malformed, target;
      }
      i := i + 1;
    }
    return Ok, target;
  }

  /** The separator and one label; a label that does not fit leaves the length as it was. */
  method CopyLabel(packet: seq<byte>, from: nat, length: nat, name: array<byte>, outputLength: nat, capacity: nat)
    returns (newLength: nat)
    requires from + length <= |packet|
    requires 1 <= length && outputLength < capacity <= name.Length
    modifies name
    ensures name[capacity..] == old(name[capacity..])
    ensures var text := AppendLabel(old(name[..outputLength]), packet[from..from + length]);
            if |text| < capacity then newLength == |text| && name[..newLength] == text
            else newLength == outputLength
  {
    var separator := if outputLength == 0 then 0 else 1;
    if separator + length > capacity - 1 - outputLength {
      return outputLength;
    }
    newLength := outputLength;
    if separator != 0 {
      name[newLength] := DOT;
      newLength := newLength + 1;
    }
    forall i | 0 <= i < length {
      name[newLength + i] := packet[from + i];
    }
    newLength := newLength + length;
  }

  /** The terminator, after the single dot that stands for the root. */
  method Terminate(name: array<byte>, outputLength: nat, capacity: nat) returns (fits: bool)
    requires outputLength < capacity <= name.Length
    modifies name
    ensures name[capacity..] == old(name[capacity..])
    ensures fits <==> outputLength > 0 || capacity >= 2
    ensures fits ==>
      (if outputLength == 0 then [DOT] else old(name[..outputLength])) + [0] <= name[..capacity]
  {
    var length := outputLength;
    if length == 0 {
      if capacity < 2 {
        return false;
      }
      name[0] := DOT;
      length := 1;
    }
    name[length] := 0;
    return true;
  }
}
