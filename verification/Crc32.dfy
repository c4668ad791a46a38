/** CRC-32: the table-driven update, the bit-by-bit definition it must equal, and the chunked copy that relies on
    both. */
module Crc32 {
  const POLYNOMIAL: bv32 := 0xedb88320
  const ALL_ONES: bv32 := 0xffffffff

  // ---------- The definition, bit by bit ----------

  /** One step of the reflected division. */
  function Shift(c: bv32): bv32 {
    if c & 1 == 1 then POLYNOMIAL ^ (c >> 1) else c >> 1
  }

  function Shifts(c: bv32, n: nat): bv32
    decreases n
  {
    if n == 0 then c else Shifts(Shift(c), n - 1)
  }

  /** A byte enters at the low end and is divided out bit by bit. */
  function Absorb(c: bv32, b: bv8): bv32 {
    Shifts(c ^ (b as bv32), 8)
  }

  function Register(c: bv32, data: seq<bv8>): bv32
    decreases |data|
  {
    if data == [] then c else Register(Absorb(c, data[0]), data[1..])
  }

  function Complement(c: bv32): bv32 {
    c ^ ALL_ONES
  }

  /** Section 8 of RFC 1952: the register starts and ends complemented. */
  function Crc(data: seq<bv8>): bv32 {
    Complement(Register(ALL_ONES, data))
  }

  /** The update a caller sees: it takes and gives finished values. */
  function Updated(crc: bv32, data: seq<bv8>): bv32 {
    Complement(Register(Complement(crc), data))
  }

  // ---------- Why a table works ----------

  function Xor(a: bv32, b: bv32): bv32 {
    a ^ b
  }

  function Half(c: bv32): bv32 {
    c >> 1
  }

  predicate Even(c: bv32) {
    c & 1 == 0
  }

  function Fed(c: bv32): bv32 {
    Xor(POLYNOMIAL, c)
  }

  lemma ShiftIs(c: bv32)
    ensures Shift(c) == if Even(c) then Half(c) else Fed(Half(c))
  {
  }

  lemma EvenXor(a: bv32, b: bv32)
    ensures Even(Xor(a, b)) <==> (Even(a) <==> Even(b))
  {
  }

  lemma HalfXor(a: bv32, b: bv32)
    ensures Half(Xor(a, b)) == Xor(Half(a), Half(b))
  {
  }

  lemma FedXor(x: bv32, y: bv32)
    ensures Xor(Fed(x), Fed(y)) == Xor(x, y) && Xor(Fed(x), y) == Fed(Xor(x, y)) && Xor(x, Fed(y)) == Fed(Xor(x, y))
  {
    hide POLYNOMIAL, Xor;
    XorCancels(POLYNOMIAL, x, y);
    XorMoves(POLYNOMIAL, x, y);
  }

  lemma XorSymmetric(a: bv32, b: bv32)
    ensures Xor(a, b) == Xor(b, a)
  {
  }

  lemma XorAssociative(a: bv32, b: bv32, c: bv32)
    ensures Xor(Xor(a, b), c) == Xor(a, Xor(b, c))
  {
  }

  lemma XorUndone(a: bv32, b: bv32)
    ensures Xor(a, Xor(a, b)) == b
  {
  }

  lemma XorCancels(p: bv32, x: bv32, y: bv32)
    ensures Xor(Xor(p, x), Xor(p, y)) == Xor(x, y)
  {
    hide Xor;
    XorSymmetric(p, x);
    XorAssociative(x, p, Xor(p, y));
    XorUndone(p, y);
  }

  lemma XorMoves(p: bv32, x: bv32, y: bv32)
    ensures Xor(Xor(p, x), y) == Xor(p, Xor(x, y)) && Xor(x, Xor(p, y)) == Xor(p, Xor(x, y))
  {
    hide Xor;
    XorAssociative(p, x, y);
    XorAssociative(x, p, y);
    XorSymmetric(x, p);
  }

  /** Division is linear: the register and the table entry can be shifted apart and combined afterwards. */
  lemma ShiftLinear(a: bv32, b: bv32)
    ensures Shift(Xor(a, b)) == Xor(Shift(a), Shift(b))
  {
    hide Shift, Even, Half, Fed, Xor;
    ShiftIs(a);
    ShiftIs(b);
    ShiftIs(Xor(a, b));
    EvenXor(a, b);
    HalfXor(a, b);
    FedXor(Half(a), Half(b));
  }

  lemma {:induction false} ShiftsLinear(a: bv32, b: bv32, n: nat)
    ensures Shifts(Xor(a, b), n) == Xor(Shifts(a, n), Shifts(b, n))
    decreases n
  {
    hide Shift, Xor;
    if n == 0 {
    } else {
      ShiftLinear(a, b);
      ShiftsLinear(Shift(a), Shift(b), n - 1);
    }
  }

  function Halved(c: bv32, n: nat): bv32
    decreases n
  {
    if n == 0 then c else Halved(Half(c), n - 1)
  }

  predicate ClearBelow(c: bv32, n: nat)
    decreases n
  {
    n == 0 || (Even(c) && ClearBelow(Half(c), n - 1))
  }

  lemma EvenShift(c: bv32)
    requires Even(c)
    ensures Shift(c) == Half(c)
  {
  }

  /** Bits that are not divided into only move down. */
  lemma {:induction false} OnlyMoved(c: bv32, n: nat)
    requires ClearBelow(c, n)
    ensures Shifts(c, n) == Halved(c, n)
    decreases n
  {
    hide Shift, Half, Even;
    if n == 0 {
    } else {
      EvenShift(c);
      OnlyMoved(Half(c), n - 1);
    }
  }

  lemma FourEven(c: bv32)
    requires c & 0xf == 0
    ensures Even(c) && Even(Half(c)) && Even(Half(Half(c))) && Even(Half(Half(Half(c))))
    ensures Half(Half(Half(Half(c)))) == c >> 4
  {
  }

  lemma {:induction false} FourMoved(c: bv32, n: nat)
    requires c & 0xf == 0 && ClearBelow(c >> 4, n)
    ensures ClearBelow(c, n + 4) && Halved(c, n + 4) == Halved(c >> 4, n)
  {
    hide Half, Even;
    FourEven(c);
    var c1 := Half(c);
    var c2 := Half(c1);
    var c3 := Half(c2);
    assert ClearBelow(c3, n + 1) && ClearBelow(c2, n + 2) && ClearBelow(c1, n + 3);
    assert Halved(c3, n + 1) == Halved(c >> 4, n) && Halved(c1, n + 3) == Halved(c2, n + 2) == Halved(c3, n + 1);
  }

  lemma Nibbles(c: bv32)
    requires c & 0xff == 0
    ensures c & 0xf == 0 && (c >> 4) & 0xf == 0 && (c >> 4) >> 4 == c >> 8
  {
  }

  lemma HighPart(c: bv32)
    requires c & 0xff == 0
    ensures Shifts(c, 8) == c >> 8
  {
    hide Shifts, Half, Even;
    Nibbles(c);
    FourMoved(c >> 4, 0);
    FourMoved(c, 4);
    OnlyMoved(c, 8);
  }

  function Low(c: bv32): bv32 {
    c & 0xff
  }

  function High(c: bv32): bv32 {
    c & 0xffffff00
  }

  function ByteDown(c: bv32): bv32 {
    c >> 8
  }

  lemma Halves(c: bv32)
    ensures c == Xor(Low(c), High(c))
    ensures High(c) & 0xff == 0 && High(c) >> 8 == ByteDown(c)
  {
  }

  /** Eight divisions at once: the table entry of the low byte and the register moved down by a byte. */
  lemma EightShifts(c: bv32)
    ensures Shifts(c, 8) == Xor(Shifts(Low(c), 8), ByteDown(c))
  {
    hide Shifts, Xor, Low, High, ByteDown;
    Halves(c);
    ShiftsLinear(Low(c), High(c), 8);
    HighPart(High(c));
  }

  lemma ByteAbove(c: bv32, b: bv8)
    ensures ByteDown(c ^ (b as bv32)) == ByteDown(c)
  {
  }

  /** The table entry for a byte. */
  function EntryOf(i: nat): bv32
    requires i < 256
  {
    Shifts(i as bv32, 8)
  }

  lemma EntryOfLow(c: bv32)
    ensures Low(c) as int < 256 && EntryOf(Low(c) as int) == Shifts(Low(c), 8)
  {
    hide Shifts;
  }

  // ---------- Composition ----------

  lemma {:induction false} RegisterConcat(c: bv32, a: seq<bv8>, b: seq<bv8>)
    ensures Register(c, a + b) == Register(Register(c, a), b)
    decreases |a|
  {
    if a == [] {
      assert a + b == b;
    } else {
      assert (a + b)[1..] == a[1..] + b;
      RegisterConcat(Absorb(c, a[0]), a[1..], b);
    }
  }

  lemma ComplementTwice(c: bv32)
    ensures Complement(Complement(c)) == c && Complement(0) == ALL_ONES
  {
  }

  /** Updating with one chunk after the other is updating with both. */
  lemma UpdatedConcat(crc: bv32, a: seq<bv8>, b: seq<bv8>)
    ensures Updated(crc, a + b) == Updated(Updated(crc, a), b)
  {
    hide Register, Complement;
    RegisterConcat(Complement(crc), a, b);
    ComplementTwice(Register(Complement(crc), a));
  }

  /** From zero the update is the checksum of the whole. */
  lemma FromZero(data: seq<bv8>)
    ensures Updated(0, data) == Crc(data)
  {
    hide Complement, ALL_ONES;
    ComplementTwice(0);
  }

  // ---------- The program ----------

  class Checksum {
    const table: array<bv32>
    var ready: bool

    ghost predicate Valid()
      reads this, table
    {
      table.Length == 256 && (ready ==> forall i :: 0 <= i < 256 ==> table[i] == EntryOf(i))
    }

    constructor ()
      ensures Valid() && fresh(table)
    {
      table := new bv32[256];
      ready := false;
    }

    /** crc32_init: the table is filled on first use. */
    method Init()
      requires Valid()
      modifies this, table
      ensures Valid() && ready
    {
      if ready {
        return;
      }
      for i := 0 to 256
        invariant forall j :: 0 <= j < i ==> table[j] == EntryOf(j)
      {
        var c: bv32 := i as bv32;
        for bit := 0 to 8
          invariant Shifts(c, 8 - bit) == Shifts(i as bv32, 8)
        {
          c := if c & 1 == 1 then POLYNOMIAL ^ (c >> 1) else c >> 1;
        }
        table[i] := c;
      }
      ready := true;
    }

    /** One byte of crc32_update. */
    method Step(c: bv32, b: bv8) returns (r: bv32)
      requires Valid() && ready
      ensures r == Absorb(c, b)
    {
      hide Shifts, EntryOf, Low, ByteDown, Xor;
      var mixed := c ^ (b as bv32);
      EightShifts(mixed);
      ByteAbove(c, b);
      EntryOfLow(mixed);
      r := Xor(table[Low(mixed) as int], ByteDown(c));
    }

    /** crc32_update: the table gives what the bit-by-bit definition gives, for every state and all data. */
    method Update(crc: bv32, data: seq<bv8>) returns (r: bv32)
      requires Valid()
      modifies this, table
      ensures Valid() && r == Updated(crc, data)
    {
      hide Absorb, EntryOf;
      Init();
      r := crc ^ ALL_ONES;
      for i := 0 to |data|
        invariant Valid() && ready
        invariant Register(r, data[i..]) == Register(Complement(crc), data)
      {
        assert data[i..][0] == data[i] && data[i..][1..] == data[i + 1..];
        r := Step(r, data[i]);
      }
      r := r ^ ALL_ONES;
    }

    /** The copy loop of copy_stored_entry over an entry's bytes: accepted exactly if the stored checksum is that of the
        whole entry, whatever the chunk size. */
    method CopyStored(entry: seq<bv8>, chunkSize: nat, stored: bv32) returns (copied: seq<bv8>, ok: bool)
      requires Valid() && chunkSize > 0
      modifies this, table
      ensures Valid() && copied == entry && (ok <==> Crc(entry) == stored)
    {
      var crc: bv32 := 0;
      var remaining := |entry|;
      copied := [];
      while remaining > 0
        invariant Valid() && 0 <= remaining <= |entry| && copied == entry[..|entry| - remaining]
        invariant crc == Updated(0, copied)
      {
        var chunk := if remaining > chunkSize then chunkSize else remaining;
        var start := |entry| - remaining;
        var buffer := entry[start..start + chunk];
        UpdatedConcat(0, copied, buffer);
        copied := copied + buffer;
        crc := Update(crc, buffer);
        remaining := remaining - chunk;
      }
      FromZero(entry);
      ok := crc == stored;
    }
  }
}
