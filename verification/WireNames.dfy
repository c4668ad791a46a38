/** Domain names: dotted text, labels, and the uncompressed wire form. */
module WireNames {

  type byte = x: int | 0 <= x < 256
  type u16 = x: int | 0 <= x < 0x1_0000
  type u32 = x: int | 0 <= x < 0x1_0000_0000

  type Ipv4 = s: seq<byte> | |s| == 4 witness [0, 0, 0, 0]

  const DOT: byte := 46

  const MAX_LABEL := 63
  const MAX_WIRE_NAME := 255
  const MAX_NAME := 256

  datatype Status = Ok | InvalidArgument | BufferTooSmall | Truncated | Malformed | LimitExceeded

  type Label = seq<byte>

  // ---------- Big-endian fields ----------

  function U16(value: u16): (bytes: seq<byte>)
    ensures |bytes| == 2
  {
    [value / 256, value % 256]
  }

  function U32(value: u32): (bytes: seq<byte>)
    ensures |bytes| == 4
  {
    [value / 0x100_0000, value / 0x1_0000 % 256, value / 256 % 256, value % 256]
  }

  function Be16(high: byte, low: byte): u16 {
    var h: int := high;
    h * 256 + low
  }

  function Be32(b0: byte, b1: byte, b2: byte, b3: byte): u32 {
    var h: int := Be16(b0, b1);
    h * 0x1_0000 + Be16(b2, b3)
  }

  // ---------- Text and labels ----------

  /** The pieces between dots; n dots give n + 1 pieces. */
  function Split(s: seq<byte>): (pieces: seq<Label>)
    ensures |pieces| >= 1
  {
    if s == [] then [[]]
    else
      var rest := Split(s[1..]);
      if s[0] == DOT then [[]] + rest else [[s[0]] + rest[0]] + rest[1..]
  }

  /** Labels joined by dots. */
  function Join(labels: seq<Label>): seq<byte>
  {
    if labels == [] then []
    else if |labels| == 1 then labels[0]
    else labels[0] + [DOT] + Join(labels[1..])
  }

  function WithoutTrailingDot(name: seq<byte>): seq<byte>
  {
    if name != [] && name[|name| - 1] == DOT then name[..|name| - 1] else name
  }

  /** The labels a dotted name stands for; the root name "." has none. */
  function Labels(name: seq<byte>): seq<Label>
  {
    if name == [DOT] then [] else Split(WithoutTrailingDot(name))
  }

  /** How a decoder prints a label sequence: the root is a single dot. */
  function DisplayText(labels: seq<Label>): seq<byte>
  {
    if labels == [] then [DOT] else Join(labels)
  }

  predicate LabelOk(text: Label)
  {
    1 <= |text| <= MAX_LABEL
  }

  predicate LabelsOk(labels: seq<Label>)
  {
    forall i :: 0 <= i < |labels| ==> LabelOk(labels[i])
  }

  predicate Dotless(s: seq<byte>)
  {
    forall i :: 0 <= i < |s| ==> s[i] != DOT
  }

  // ---------- Wire form ----------

  /** Bytes taken by the labels without the terminating zero. */
  function BodyLength(labels: seq<Label>): nat
  {
    if labels == [] then 0 else 1 + |labels[0]| + BodyLength(labels[1..])
  }

  function WireLength(labels: seq<Label>): nat
  {
    BodyLength(labels) + 1
  }

  /** A length byte and that many bytes: the form of a label and of a TXT string. */
  function LengthPrefixed(text: seq<byte>): (bytes: seq<byte>)
    requires |text| <= 255
    ensures |bytes| == 1 + |text|
  {
    [|text|] + text
  }

  function EncodeLabels(labels: seq<Label>): (bytes: seq<byte>)
    requires LabelsOk(labels)
    ensures |bytes| == BodyLength(labels)
  {
    if labels == [] then []
    else
      assert LabelOk(labels[0]);
      assert LabelsOk(labels[1..]) by {
        forall i | 0 <= i < |labels[1..]| ensures LabelOk(labels[1..][i]) { assert LabelOk(labels[i + 1]); }
      }
      LengthPrefixed(labels[0]) + EncodeLabels(labels[1..])
  }

  function EncodeName(labels: seq<Label>): (bytes: seq<byte>)
    requires LabelsOk(labels)
    ensures |bytes| == WireLength(labels)
  {
    EncodeLabels(labels) + [0]
  }

  predicate NameValid(name: seq<byte>)
  {
    name != [] && LabelsOk(Labels(name)) && WireLength(Labels(name)) <= MAX_WIRE_NAME
  }

  // ---------- Lemmas ----------

  lemma {:induction false} SplitDotless(s: seq<byte>)
    requires Dotless(s)
    ensures Split(s) == [s]
  {
    if s == [] {
    } else {
      SplitDotless(s[1..]);
      assert [s[0]] + s[1..] == s;
    }
  }

  lemma {:induction false} SplitAtDot(piece: seq<byte>, rest: seq<byte>)
    requires Dotless(piece)
    ensures Split(piece + [DOT] + rest) == [piece] + Split(rest)
  {
    var s := piece + [DOT] + rest;
    if piece == [] {
      assert s[1..] == rest;
    } else {
      SplitAtDot(piece[1..], rest);
      assert s[1..] == piece[1..] + [DOT] + rest;
      assert [s[0]] + piece[1..] == piece;
    }
  }

  lemma JoinPrepended(c: byte, rest: seq<Label>)
    requires rest != []
    ensures Join([[c] + rest[0]] + rest[1..]) == [c] + Join(rest)
  {
    assert ([[c] + rest[0]] + rest[1..])[1..] == rest[1..];
    if |rest| > 1 {
      assert [c] + rest[0] + [DOT] + Join(rest[1..]) == [c] + (rest[0] + [DOT] + Join(rest[1..]));
    }
  }

  lemma {:induction false} JoinSplit(s: seq<byte>)
    ensures Join(Split(s)) == s
    ensures forall i :: 0 <= i < |Split(s)| ==> Dotless(Split(s)[i])
  {
    if s == [] {
    } else {
      JoinSplit(s[1..]);
      var rest := Split(s[1..]);
      if s[0] == DOT {
        assert ([[]] + rest)[1..] == rest;
      } else {
        var pieces := [[s[0]] + rest[0]] + rest[1..];
        JoinPrepended(s[0], rest);
        assert pieces[1..] == rest[1..];
        forall i | 0 <= i < |pieces| ensures Dotless(pieces[i]) {
          if i > 0 { assert pieces[i] == rest[i]; } else { assert Dotless(rest[0]); }
        }
      }
    }
  }

  /** Splitting undoes joining: no information is lost by the text form. */
  lemma {:induction false} SplitJoin(labels: seq<Label>)
    requires labels != []
    requires forall i :: 0 <= i < |labels| ==> Dotless(labels[i])
    ensures Split(Join(labels)) == labels
  {
    if |labels| == 1 {
      SplitDotless(labels[0]);
    } else {
      SplitJoin(labels[1..]);
      SplitAtDot(labels[0], Join(labels[1..]));
    }
  }

  lemma {:induction false} SplitTrailingDot(s: seq<byte>)
    ensures Split(s + [DOT]) == Split(s) + [[]]
  {
    if s == [] {
      assert [DOT][1..] == [];
      assert Split([]) == [[]];
    } else {
      SplitTrailingDot(s[1..]);
      assert (s + [DOT])[1..] == s[1..] + [DOT];
      var rest := Split(s[1..]);
      assert (rest + [[]])[1..] == rest[1..] + [[]];
    }
  }

  /** A name is its labels' text, up to its optional trailing dot. */
  lemma LabelsText(name: seq<byte>)
    requires name != []
    ensures DisplayText(Labels(name)) == if name == [DOT] then name else WithoutTrailingDot(name)
    ensures forall i :: 0 <= i < |Labels(name)| ==> Dotless(Labels(name)[i])
  {
    if name != [DOT] {
      JoinSplit(WithoutTrailingDot(name));
    }
  }

  lemma {:induction false} BodyLengthConcat(a: seq<Label>, b: seq<Label>)
    ensures BodyLength(a + b) == BodyLength(a) + BodyLength(b)
  {
    if a == [] {
      assert a + b == b;
    } else {
      assert (a + b)[1..] == a[1..] + b;
      BodyLengthConcat(a[1..], b);
    }
  }

  lemma LabelsOkConcat(a: seq<Label>, b: seq<Label>)
    ensures LabelsOk(a + b) <==> LabelsOk(a) && LabelsOk(b)
  {
    if LabelsOk(a + b) {
      forall i | 0 <= i < |a| ensures LabelOk(a[i]) { assert LabelOk((a + b)[i]); }
      forall i | 0 <= i < |b| ensures LabelOk(b[i]) { assert LabelOk((a + b)[|a| + i]); }
    }
  }

  lemma {:induction false} EncodeLabelsConcat(a: seq<Label>, b: seq<Label>)
    requires LabelsOk(a) && LabelsOk(b)
    ensures LabelsOk(a + b)
    ensures EncodeLabels(a + b) == EncodeLabels(a) + EncodeLabels(b)
  {
    LabelsOkConcat(a, b);
    if a == [] {
      assert a + b == b;
    } else {
      assert (a + b)[1..] == a[1..] + b;
      LabelsOkConcat([a[0]], a[1..]);
      assert [a[0]] + a[1..] == a;
      EncodeLabelsConcat(a[1..], b);
    }
  }

  lemma {:induction false} JoinLength(labels: seq<Label>)
    requires labels != []
    ensures |Join(labels)| + 1 == BodyLength(labels)
  {
    if |labels| > 1 {
      JoinLength(labels[1..]);
    }
  }
}
