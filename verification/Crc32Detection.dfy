/** What the checksum is for: the standard check value, and the changes to an entry that it cannot miss. */
module Crc32Detection {
  import opened Crc32

  // ---------- The check value ----------

  lemma FirstDigits()
    ensures Absorb(0xffffffff, 0x31) == 0x7c231048
    ensures Absorb(0x7c231048, 0x32) == 0xb0acbb32
    ensures Absorb(0xb0acbb32, 0x33) == 0x77b79c2d
  {
  }

  lemma MiddleDigits()
    ensures Absorb(0x77b79c2d, 0x34) == 0x641c1f5c
    ensures Absorb(0x641c1f5c, 0x35) == 0x340ac5e3
    ensures Absorb(0x340ac5e3, 0x36) == 0xf68d2c9e
  {
  }

  lemma LastDigits()
    ensures Absorb(0xf68d2c9e, 0x37) == 0xaffc9660
    ensures Absorb(0xaffc9660, 0x38) == 0x651f2550
    ensures Absorb(0x651f2550, 0x39) == 0x340bc6d9
  {
  }

  lemma Three(c: bv32, x: bv8, y: bv8, z: bv8)
    ensures Register(c, [x, y, z]) == Absorb(Absorb(Absorb(c, x), y), z)
  {
    hide Absorb;
    assert [x, y, z][1..] == [y, z] && [y, z][1..] == [z] && [z][1..] == [];
    assert Register(Absorb(Absorb(Absorb(c, x), y), z), []) == Absorb(Absorb(Absorb(c, x), y), z);
    assert Register(Absorb(Absorb(c, x), y), [z]) == Absorb(Absorb(Absorb(c, x), y), z);
    assert Register(Absorb(c, x), [y, z]) == Absorb(Absorb(Absorb(c, x), y), z);
  }

  lemma Complemented()
    ensures Complement(0x340bc6d9) == 0xcbf43926 && ALL_ONES == 0xffffffff
  {
  }

  /** The check value of this checksum, that of the digits 1 to 9: polynomial, bit order and complements are the
      standard ones. */
  lemma CheckValue()
    ensures Crc([0x31, 0x32, 0x33, 0x34, 0x35, 0x36, 0x37, 0x38, 0x39]) == 0xcbf43926
  {
    hide Absorb, Complement, Register, ALL_ONES;
    var a: seq<bv8>, b: seq<bv8>, c: seq<bv8> := [0x31, 0x32, 0x33], [0x34, 0x35, 0x36], [0x37, 0x38, 0x39];
    assert (a + b) + c == [0x31, 0x32, 0x33, 0x34, 0x35, 0x36, 0x37, 0x38, 0x39];
    RegisterConcat(0xffffffff, a + b, c);
    RegisterConcat(0xffffffff, a, b);
    Three(0xffffffff, 0x31, 0x32, 0x33);
    Three(0x77b79c2d, 0x34, 0x35, 0x36);
    Three(0xf68d2c9e, 0x37, 0x38, 0x39);
    FirstDigits();
    MiddleDigits();
    LastDigits();
    Complemented();
  }

  // ---------- Bursts ----------

  /** A step of the division loses nothing: the top bit tells which branch it took. */
  lemma ShiftInjective(a: bv32, b: bv32)
    requires Shift(a) == Shift(b)
    ensures a == b
  {
  }

  lemma {:induction false} ShiftsInjective(a: bv32, b: bv32, n: nat)
    requires Shifts(a, n) == Shifts(b, n)
    ensures a == b
    decreases n
  {
    hide Shift;
    if n == 0 {
    } else {
      ShiftsInjective(Shift(a), Shift(b), n - 1);
      ShiftInjective(a, b);
    }
  }

  lemma {:induction false} ShiftsAdd(c: bv32, m: nat, n: nat)
    ensures Shifts(c, m + n) == Shifts(Shifts(c, m), n)
    decreases m
  {
    hide Shift;
    if m == 0 {
    } else {
      ShiftsAdd(Shift(c), m - 1, n);
    }
  }

  function Wide(b: bv8): bv32 {
    b as bv32
  }

  function ByteUp(c: bv32): bv32 {
    c << 8
  }

  function Clear(): bv32 {
    0
  }

  /** The top byte is free. */
  predicate Roomy(c: bv32) {
    c & 0xff000000 == 0
  }

  /** Up to four bytes as one word, the first at the low end. */
  function Word(data: seq<bv8>): bv32
    decreases |data|
  {
    if data == [] then Clear() else Xor(Wide(data[0]), ByteUp(Word(data[1..])))
  }

  lemma AbsorbIs(c: bv32, b: bv8)
    ensures Absorb(c, b) == Shifts(Xor(c, Wide(b)), 8)
  {
    hide Shifts;
  }

  lemma XorInjective(c: bv32, v: bv32, w: bv32)
    requires Xor(c, v) == Xor(c, w) || Xor(v, c) == Xor(w, c)
    ensures v == w
  {
  }

  lemma XorClear(c: bv32)
    ensures Xor(c, Clear()) == c && Roomy(Clear())
  {
  }

  lemma JoinInjective(b: bv8, v: bv32, c: bv8, w: bv32)
    requires Roomy(v) && Roomy(w) && Xor(Wide(b), ByteUp(v)) == Xor(Wide(c), ByteUp(w))
    ensures b == c && v == w
  {
    hide Roomy, Xor, Wide, ByteUp;
    JoinedApart(b, v);
    JoinedApart(c, w);
  }

  lemma JoinedApart(b: bv8, v: bv32)
    requires Roomy(v)
    ensures Xor(Wide(b), ByteUp(v)) >> 8 == v && (Xor(Wide(b), ByteUp(v)) & 0xff) as bv8 == b
  {
  }

  lemma {:induction false} RegisterInjective(a: bv32, b: bv32, data: seq<bv8>)
    requires Register(a, data) == Register(b, data)
    ensures a == b
    decreases |data|
  {
    hide Shifts, Xor, Absorb, Wide;
    if data == [] {
    } else {
      RegisterInjective(Absorb(a, data[0]), Absorb(b, data[0]), data[1..]);
      AbsorbIs(a, data[0]);
      AbsorbIs(b, data[0]);
      ShiftsInjective(Xor(a, Wide(data[0])), Xor(b, Wide(data[0])), 8);
      XorInjective(Wide(data[0]), a, b);
    }
  }

  predicate Below(c: bv32, n: nat) {
    (n <= 3 ==> Roomy(c)) && (n <= 2 ==> c & 0xffff0000 == 0) && (n <= 1 ==> c & 0xffffff00 == 0) && (n == 0 ==> c == 0)
  }

  lemma OneMore(b: bv8, c: bv32, n: nat)
    requires Below(c, n)
    ensures Below(Xor(Wide(b), ByteUp(c)), n + 1)
  {
  }

  lemma NoneYet()
    ensures Below(Clear(), 0)
  {
  }

  lemma {:induction false} WordBelow(data: seq<bv8>)
    ensures Below(Word(data), |data|)
    decreases |data|
  {
    hide Below, Xor, Wide, ByteUp, Clear;
    if data == [] {
      NoneYet();
    } else {
      WordBelow(data[1..]);
      OneMore(data[0], Word(data[1..]), |data[1..]|);
    }
  }

  lemma WordRoomy(data: seq<bv8>)
    requires |data| <= 3
    ensures Roomy(Word(data))
  {
    hide Roomy, Word;
    WordBelow(data);
  }

  lemma {:induction false} WordInjective(x: seq<bv8>, y: seq<bv8>)
    requires |x| == |y| <= 4 && Word(x) == Word(y)
    ensures x == y
    decreases |x|
  {
    hide Roomy, Xor, Wide, ByteUp, Clear;
    if x == [] {
    } else {
      WordRoomy(x[1..]);
      WordRoomy(y[1..]);
      JoinInjective(x[0], Word(x[1..]), y[0], Word(y[1..]));
      WordInjective(x[1..], y[1..]);
      assert x == [x[0]] + x[1..] && y == [y[0]] + y[1..];
    }
  }

  lemma UpAndDown(w: bv32)
    requires Roomy(w)
    ensures ByteUp(w) & 0xff == 0 && ByteUp(w) >> 8 == w
  {
  }

  lemma MovedDown(w: bv32)
    requires Roomy(w)
    ensures Shifts(ByteUp(w), 8) == w
  {
    hide Shifts, ByteUp, Roomy;
    UpAndDown(w);
    HighPart(ByteUp(w));
  }

  /** Absorbing up to four bytes is dividing their word out at once. */
  lemma {:induction false} RegisterWord(c: bv32, data: seq<bv8>)
    requires |data| <= 4
    ensures Register(c, data) == Shifts(Xor(c, Word(data)), 8 * |data|)
    decreases |data|
  {
    hide Shift, Xor, Absorb, Wide, ByteUp, Clear, Roomy;
    if data == [] {
      XorClear(c);
    } else {
      var b, w := Wide(data[0]), Word(data[1..]);
      WordRoomy(data[1..]);
      RegisterWord(Absorb(c, data[0]), data[1..]);
      AbsorbIs(c, data[0]);
      MovedDown(w);
      ShiftsLinear(Xor(c, b), ByteUp(w), 8);
      XorAssociative(c, b, ByteUp(w));
      ShiftsAdd(Xor(c, Word(data)), 8, 8 * |data[1..]|);
    }
  }

  lemma ComplementInjective(a: bv32, b: bv32)
    requires Complement(a) == Complement(b)
    ensures a == b
  {
  }

  /** A change within four neighbouring bytes of an entry never keeps its checksum. */
  lemma BurstDetected(before: seq<bv8>, x: seq<bv8>, y: seq<bv8>, after: seq<bv8>)
    requires |x| == |y| <= 4 && x != y
    ensures Crc(before + x + after) != Crc(before + y + after)
  {
    hide Register, Shifts, Word, Complement, Xor, ALL_ONES;
    var c := Register(ALL_ONES, before);
    if Crc(before + x + after) == Crc(before + y + after) {
      ComplementInjective(Register(ALL_ONES, before + x + after), Register(ALL_ONES, before + y + after));
      RegisterConcat(ALL_ONES, before + x, after);
      RegisterConcat(ALL_ONES, before + y, after);
      RegisterConcat(ALL_ONES, before, x);
      RegisterConcat(ALL_ONES, before, y);
      RegisterInjective(Register(c, x), Register(c, y), after);
      RegisterWord(c, x);
      RegisterWord(c, y);
      ShiftsInjective(Xor(c, Word(x)), Xor(c, Word(y)), 8 * |x|);
      XorInjective(c, Word(x), Word(y));
      WordInjective(x, y);
    }
  }
}
