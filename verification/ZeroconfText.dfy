/** How the names a guest passes in become DNS components. */
module ZeroconfText {
  import opened Options
  import opened WireNames
  import opened WireWriter

  /** copy_dns_component: dots are stripped at both ends; an empty input (or none at all) stands for the fallback. */
  function Component(input: seq<byte>, fallback: seq<byte>, capacity: nat): Option<seq<byte>> {
    var value := if input == [] then fallback else input;
    var text := StripTrailingDots(StripLeadingDots(value));
    if text == [] || |text| >= capacity then None else Some(text)
  }

  /** join_dns_name */
  function Joined(left: seq<byte>, right: seq<byte>): Option<seq<byte>> {
    if left == [] || right == [] || |left| + 1 + |right| >= MAX_NAME then None else Some(left + [DOT] + right)
  }

  predicate AllDots(s: seq<byte>, from: nat, to: nat)
    requires to <= |s|
  {
    forall i :: from <= i < to ==> s[i] == DOT
  }

  /** `text` is what is left of `value` when the dots around it are taken away. */
  ghost predicate Core(value: seq<byte>, text: seq<byte>) {
    text != [] && text[0] != DOT && text[|text| - 1] != DOT
    && exists n: nat :: n + |text| <= |value| && value[n..n + |text|] == text
                        && AllDots(value, 0, n) && AllDots(value, n + |text|, |value|)
  }

  lemma {:induction false} StripLeadingExact(s: seq<byte>) returns (n: nat)
    ensures n <= |s| && StripLeadingDots(s) == s[n..] && AllDots(s, 0, n)
    ensures n < |s| ==> s[n] != DOT
  {
    n := 0;
    if s != [] && s[0] == DOT {
      var m := StripLeadingExact(s[1..]);
      n := m + 1;
      assert s[n..] == s[1..][m..];
      assert forall i :: 0 < i < n ==> s[i] == s[1..][i - 1];
      if n < |s| { assert s[n] == s[1..][m]; }
    }
  }

  lemma {:induction false} StripTrailingExact(s: seq<byte>) returns (n: nat)
    ensures n <= |s| && StripTrailingDots(s) == s[..n] && AllDots(s, n, |s|)
    ensures n > 0 ==> s[n - 1] != DOT
  {
    n := |s|;
    if s != [] && s[|s| - 1] == DOT {
      var before := s[..|s| - 1];
      n := StripTrailingExact(before);
      assert s[..n] == before[..n];
      assert forall i :: n <= i < |before| ==> s[i] == before[i];
    } else {
      assert s[..n] == s;
    }
  }

  /** A component is exactly the dot-free core of the value it is taken from, if that is short enough. */
  lemma ComponentExact(input: seq<byte>, fallback: seq<byte>, capacity: nat)
    ensures var value := if input == [] then fallback else input;
            match Component(input, fallback, capacity)
            case Some(text) => Core(value, text) && |text| < capacity
            case None => forall text :: Core(value, text) ==> |text| >= capacity
  {
    var value := if input == [] then fallback else input;
    var n := StripLeadingExact(value);
    var rest := value[n..];
    var m := StripTrailingExact(rest);
    var text := rest[..m];
    assert StripTrailingDots(StripLeadingDots(value)) == text;
    assert value[n..n + m] == text;
    assert forall i :: n + m <= i < |value| ==> value[i] == rest[i - n];
    if text != [] {
      assert text[0] == value[n] && text[m - 1] == rest[m - 1];
      assert Core(value, text);
    }
    forall other | Core(value, other)
      ensures other == text
    {
      CoreUnique(value, n, m, other);
    }
  }

  lemma CoreUnique(value: seq<byte>, n: nat, m: nat, other: seq<byte>)
    requires n + m <= |value| && AllDots(value, 0, n) && AllDots(value, n + m, |value|)
    requires n < |value| ==> value[n] != DOT
    requires m > 0 ==> value[n + m - 1] != DOT
    requires Core(value, other)
    ensures other == value[n..n + m]
  {
    var k: nat :| k + |other| <= |value| && value[k..k + |other|] == other
                  && AllDots(value, 0, k) && AllDots(value, k + |other|, |value|);
    var end := k + |other|;
    assert value[k] == other[0] && value[end - 1] == other[|other| - 1];
    assert n == k && n + m == end;
  }

  /** The loops of copy_dns_component. */
  method CopyComponent(input: seq<byte>, fallback: seq<byte>, capacity: nat) returns (component: Option<seq<byte>>)
    ensures component == Component(input, fallback, capacity)
  {
    var value := if input == [] then fallback else input;
    ghost var whole := value;
    while value != [] && value[0] == DOT
      invariant StripLeadingDots(value) == StripLeadingDots(whole)
      decreases |value|
    {
      value := value[1..];
    }
    var length := |value|;
    assert value[..length] == value;
    while length > 0 && value[length - 1] == DOT
      invariant 0 <= length <= |value|
      invariant StripTrailingDots(value[..length]) == StripTrailingDots(StripLeadingDots(whole))
    {
      assert value[..length][..length - 1] == value[..length - 1];
      length := length - 1;
    }
    if length == 0 || length >= capacity {
      return None;
    }
    return Some(value[..length]);
  }
}
