/** The Modbus RTU checksum: computing it, framing with it, and what it detects. */
module ModbusRtu {
  import opened ModbusCrcTables

  type Bytes = seq<bv8>

  /** The two halves of the checksum register as the table-driven loop keeps them. */
  datatype Crc = Crc(hi: bv8, lo: bv8)

  const INIT := Crc(0xFF, 0xFF)

  function Step(c: Crc, b: bv8): Crc {
    var i := Xor8(c.hi, b);
    Crc(Xor8(c.lo, TableCrcHi(i)), TableCrcLo(i))
  }

  function Run(c: Crc, m: Bytes): Crc {
    if m == [] then c else Step(Run(c, m[..|m| - 1]), m[|m| - 1])
  }

  // ----- the definition in section 6.2.2 of the serial line specification -----

  function StandardByte(c: bv16, b: bv8): bv16 {
    Shift8(c ^ b as bv16)
  }

  /** The register after a sequence of bytes; a checksum starts from 0xFFFF. */
  function Register(c: bv16, m: Bytes): bv16 {
    if m == [] then c else StandardByte(Register(c, m[..|m| - 1]), m[|m| - 1])
  }

  function Standard(m: Bytes): bv16 {
    Register(0xFFFF, m)
  }

  function Join(high: bv8, low: bv8): bv16 {
    ((high as bv16) << 8) | low as bv16
  }

  function Swapped(c: Crc): bv16 {
    Join(c.lo, c.hi)
  }

  // ----- the register shifts linearly, and without losing anything -----

  // The operations have names, so that proofs about them need not look at single bits.

  function Xor(c: bv16, d: bv16): bv16 {
    c ^ d
  }

  function Xor8(c: bv8, d: bv8): bv8 {
    c ^ d
  }

  function Low(b: bv8): bv16 {
    b as bv16
  }

  function High(b: bv8): bv16 {
    (b as bv16) << 8
  }

  function Shifts(c: bv16, n: nat): bv16 {
    if n == 0 then c else Shift(Shifts(c, n - 1))
  }

  function Half(c: bv16): bv16 {
    c >> 1
  }

  function Feedback(c: bv16): bv16 {
    if c & 1 == 1 then 0xA001 else 0
  }

  lemma ShiftXor(c: bv16, d: bv16)
    ensures Shift(Xor(c, d)) == Xor(Shift(c), Shift(d))
  {
    hide *;
    ShiftParts(c);
    ShiftParts(d);
    ShiftParts(Xor(c, d));
    HalfXor(c, d);
    FeedbackXor(c, d);
    XorSwap(Half(c), Half(d), Feedback(c), Feedback(d));
  }

  lemma ShiftParts(c: bv16)
    ensures Shift(c) == Xor(Half(c), Feedback(c))
  {
    if c & 1 == 1 {
      assert Shift(c) == (c >> 1) ^ 0xA001;
    } else {
      XorZeroIs(c >> 1);
    }
  }

  lemma HalfXor(c: bv16, d: bv16)
    ensures Half(Xor(c, d)) == Xor(Half(c), Half(d))
  {
  }

  lemma FeedbackXor(c: bv16, d: bv16)
    ensures Feedback(Xor(c, d)) == Xor(Feedback(c), Feedback(d))
  {
    hide Xor;
    LowestBit(c, d);
    XorZeroIs(0xA001);
    XorZeroIs(0);
    XorSelf(0xA001);
  }

  lemma LowestBit(c: bv16, d: bv16)
    ensures Xor(c, d) & 1 == 1 <==> (c & 1 == 1) != (d & 1 == 1)
  {
  }

  lemma XorSwap(a: bv16, b: bv16, c: bv16, d: bv16)
    ensures Xor(Xor(a, b), Xor(c, d)) == Xor(Xor(a, c), Xor(b, d))
  {
    hide Xor;
    XorAssoc(a, b, Xor(c, d));
    XorAssoc(b, c, d);
    XorComm(b, c);
    XorAssoc(c, b, d);
    XorAssoc(a, c, Xor(b, d));
  }

  lemma XorComm(a: bv16, b: bv16)
    ensures Xor(a, b) == Xor(b, a)
  {
  }

  lemma {:induction false} ShiftsXor(c: bv16, d: bv16, n: nat)
    ensures Shifts(Xor(c, d), n) == Xor(Shifts(c, n), Shifts(d, n))
  {
    hide Xor, Shift;
    if n > 0 {
      ShiftsXor(c, d, n - 1);
      ShiftXor(Shifts(c, n - 1), Shifts(d, n - 1));
    }
  }

  lemma ShiftZero(c: bv16)
    ensures Shift(c) == 0 <==> c == 0
  {
  }

  lemma {:induction false} ShiftsZero(c: bv16, n: nat)
    ensures Shifts(c, n) == 0 <==> c == 0
  {
    hide Shift;
    if n > 0 {
      ShiftZero(Shifts(c, n - 1));
      ShiftsZero(c, n - 1);
    }
  }

  lemma XorZero(c: bv16, d: bv16)
    ensures Xor(c, d) == 0 <==> c == d
  {
    hide Xor;
    XorTwice(c, d);
    XorZeroIs(d);
    XorSelf(c);
  }

  lemma XorSelf(c: bv16)
    ensures Xor(c, c) == 0
  {
  }

  /** Different registers stay different. */
  lemma ShiftsInjective(c: bv16, d: bv16, n: nat)
    ensures Shifts(c, n) == Shifts(d, n) <==> c == d
  {
    hide Xor, Shift, Shifts;
    ShiftsXor(c, d, n);
    ShiftsZero(Xor(c, d), n);
    XorZero(c, d);
    XorZero(Shifts(c, n), Shifts(d, n));
  }

  lemma {:induction false} ShiftsAdd(c: bv16, m: nat, n: nat)
    ensures Shifts(Shifts(c, m), n) == Shifts(c, m + n)
  {
    hide Shift;
    if n > 0 {
      ShiftsAdd(c, m, n - 1);
    }
  }

  lemma Shift8Is(c: bv16)
    ensures Shift8(c) == Shifts(c, 8)
  {
    hide Shift;
    assert Shifts(c, 4) == Shift4(c) by { FourShifts(c); }
    FourShifts(Shift4(c));
    ShiftsAdd(c, 4, 4);
  }

  lemma FourShifts(c: bv16)
    ensures Shifts(c, 4) == Shift4(c)
  {
    hide Shift;
    assert Shifts(c, 2) == Shift(Shifts(c, 1)) && Shifts(c, 1) == Shift(c);
  }

  lemma ShiftHigh(b: bv8)
    ensures Shift8(High(b)) == Low(b)
  {
  }

  /** The upper byte of the register is only moved down, exclusive-or what the lower one becomes. */
  lemma ShiftBytes(low: bv8, high: bv8)
    ensures Shift8(Xor(Low(low), High(high))) == Xor(Shift8(Low(low)), Low(high))
  {
    hide Shift8, Xor, Low, High;
    Shift8Is(Xor(Low(low), High(high)));
    Shift8Is(Low(low));
    Shift8Is(High(high));
    ShiftsXor(Low(low), High(high), 8);
    ShiftHigh(high);
  }

  // ----- the table-driven loop computes the standard's checksum -----

  lemma JoinXor(high: bv8, low: bv8, b: bv8)
    ensures Xor(Join(high, low), Low(b)) == Xor(Low(Xor8(low, b)), High(high))
    ensures Xor(Join(high, low), Low(b)) == Join(high, Xor8(b, low))
  {
  }

  lemma StepParts(c: Crc, b: bv8)
    ensures var i := Xor8(c.hi, b); Step(c, b) == Crc(Xor8(c.lo, TableCrcHi(i)), TableCrcLo(i))
  {
    hide TableCrcHi, TableCrcLo, Xor8;
  }

  lemma StandardParts(c: bv16, b: bv8)
    ensures StandardByte(c, b) == Shift8(Xor(c, Low(b)))
  {
    hide Shift8;
  }

  lemma TableJoin(i: bv8)
    ensures Shift8(Low(i)) == Join(TableCrcLo(i), TableCrcHi(i))
  {
    hide Shift8, TableCrcHi, TableCrcLo;
    TableIsBitwise(i);
  }

  lemma StepIsStandard(c: Crc, b: bv8)
    ensures Swapped(Step(c, b)) == StandardByte(Swapped(c), b)
  {
    hide *;
    StepParts(c, b);
    StandardParts(Swapped(c), b);
    var i := Xor8(c.hi, b);
    TableJoin(i);
    ShiftBytes(i, c.lo);
    JoinXor(c.lo, c.hi, b);
    JoinXor(TableCrcLo(i), TableCrcHi(i), c.lo);
    SwappedIs(c);
    SwappedIs(Step(c, b));
  }

  lemma SwappedIs(c: Crc)
    ensures Swapped(c) == Join(c.lo, c.hi)
  {
  }

  lemma {:induction false} RunIsStandard(m: Bytes)
    ensures Swapped(Run(INIT, m)) == Standard(m)
  {
    hide Step, StandardByte;
    if m != [] {
      RunIsStandard(m[..|m| - 1]);
      StepIsStandard(Run(INIT, m[..|m| - 1]), m[|m| - 1]);
    } else {
      assert Swapped(INIT) == 0xFFFF;
    }
  }

  // ----- frames -----

  /** The length that the checksum routine gets: its parameter has sixteen bits. */
  function Length16(n: nat): nat {
    n % 0x10000
  }

  function Checksum(m: Bytes): Crc {
    Run(INIT, m[..Length16(|m|)])
  }

  /** A message with its checksum, as it is sent. */
  function Frame(m: Bytes): Bytes {
    m + [Checksum(m).hi, Checksum(m).lo]
  }

  predicate Accepts(f: Bytes)
    requires |f| >= 2
  {
    Checksum(f[..|f| - 2]) == Crc(f[|f| - 2], f[|f| - 1])
  }

  /** What is sent is accepted, and the bytes appended are the standard's checksum of the
      bytes counted, low-order byte first. */
  lemma FrameIsStandard(m: Bytes)
    ensures var r := Standard(m[..Length16(|m|)]); Frame(m) == m + [(r & 0xFF) as bv8, (r >> 8) as bv8]
    ensures Accepts(Frame(m))
  {
    hide Run, Standard, Register;
    assert Frame(m)[..|m|] == m;
    RunIsStandard(m[..Length16(|m|)]);
    Halves(Checksum(m));
  }

  /** The example of the specification: a device with address 2, function code 7. */
  lemma FrameExample()
    ensures Frame([0x02, 0x07]) == [0x02, 0x07, 0x41, 0x12]
  {
    hide TableCrcHi, TableCrcLo;
    var m: Bytes := [0x02, 0x07];
    assert m[..1] == [0x02] && m[..1][..0] == [] && m[..2] == m;
    assert Run(INIT, [0x02]) == Step(Run(INIT, []), 0x02) && Run(INIT, []) == INIT;
    assert Run(INIT, m) == Step(Run(INIT, m[..1]), 0x07);
    ExampleSteps();
  }

  lemma ExampleSteps()
    ensures Step(INIT, 0x02) == Crc(0x3E, 0x81) && Step(Crc(0x3E, 0x81), 0x07) == Crc(0x41, 0x12)
  {
  }

  lemma Halves(c: Crc)
    ensures (Swapped(c) & 0xFF) as bv8 == c.hi && (Swapped(c) >> 8) as bv8 == c.lo
  {
  }

  // ----- a frame is accepted exactly when it leaves nothing in the register -----

  lemma LowHigh(b: bv8, c: bv8)
    ensures Low(b) == High(c) <==> b == 0 && c == 0
  {
  }

  lemma LowXor(b: bv8, c: bv8)
    ensures Xor(Low(b), Low(c)) == Low(Xor8(b, c)) && (Xor8(b, c) == 0 <==> b == c)
  {
  }

  lemma XorMoves(a: bv16, b: bv16, c: bv16)
    ensures Xor(a, b) == c <==> a == Xor(b, c)
  {
    hide Xor;
    XorTwice(a, b);
    XorTwice(c, b);
  }

  lemma XorTwice(a: bv16, b: bv16)
    ensures Xor(b, Xor(a, b)) == a && Xor(Xor(b, a), b) == a
  {
  }

  lemma Shift8Injective(c: bv16, d: bv16)
    ensures Shift8(c) == Shift8(d) <==> c == d
    ensures Shift8(c) == 0 <==> c == 0
  {
    hide Shift8, Shifts;
    Shift8Is(c);
    Shift8Is(d);
    ShiftsInjective(c, d, 8);
    ShiftsZero(c, 8);
  }

  /** Only the two halves of the register themselves, low one first, clear it. */
  lemma ClearsRegister(low: bv8, high: bv8, x: bv8, y: bv8)
    ensures StandardByte(StandardByte(Join(high, low), x), y) == 0 <==> x == low && y == high
  {
    hide *;
    var i, j := Xor8(low, x), Xor8(high, y);
    var s := StandardByte(Join(high, low), x);
    StandardParts(Join(high, low), x);
    StandardParts(s, y);
    JoinXor(high, low, x);
    ShiftBytes(i, high);
    Shift8Injective(Xor(s, Low(y)), 0);
    XorZero(s, Low(y));
    XorMoves(Shift8(Low(i)), Low(high), Low(y));
    LowXor(high, y);
    LowXor(low, x);
    ShiftHigh(j);
    Shift8Injective(Low(i), High(j));
    LowHigh(i, j);
  }

  lemma Residue(f: Bytes)
    requires 2 <= |f| < 0x10002
    ensures Accepts(f) <==> Standard(f) == 0
  {
    hide Run, StandardByte, Join;
    var n := |f| - 2;
    var m := f[..n];
    assert m[..n] == m;
    RunIsStandard(m);
    var c := Run(INIT, m);
    ClearsRegister(c.hi, c.lo, f[n], f[n + 1]);
    assert f[..n + 1][..n] == m && f[..n + 1][n] == f[n] && f[..n + 2] == f;
    assert Register(0xFFFF, f[..n + 1]) == StandardByte(Standard(m), f[n]);
    assert Register(0xFFFF, f) == StandardByte(Register(0xFFFF, f[..n + 1]), f[n + 1]);
  }

  // ----- the register bit by bit -----

  type Bits = seq<bool>

  /** The bits of a byte in the order in which they are sent. */
  function ByteBits(b: bv8): Bits {
    [b & 1 != 0, b & 2 != 0, b & 4 != 0, b & 8 != 0, b & 16 != 0, b & 32 != 0, b & 64 != 0, b & 128 != 0]
  }

  function BitsOf(m: Bytes): (r: Bits)
    ensures |r| == 8 * |m|
  {
    if m == [] then [] else BitsOf(m[..|m| - 1]) + ByteBits(m[|m| - 1])
  }

  /** The register after single bits. */
  function Feed(c: bv16, bits: Bits): bv16 {
    if bits == [] then c
    else Shift(Xor(Feed(c, bits[..|bits| - 1]), if bits[|bits| - 1] then 1 else 0))
  }

  /** The number with only bit n set. */
  function One(n: nat): bv16
    requires n < 16
  {
    if n < 8 then
      (if n == 0 then 0x0001 else if n == 1 then 0x0002 else if n == 2 then 0x0004 else if n == 3 then 0x0008
       else if n == 4 then 0x0010 else if n == 5 then 0x0020 else if n == 6 then 0x0040 else 0x0080)
    else
      (if n == 8 then 0x0100 else if n == 9 then 0x0200 else if n == 10 then 0x0400 else if n == 11 then 0x0800
       else if n == 12 then 0x1000 else if n == 13 then 0x2000 else if n == 14 then 0x4000 else 0x8000)
  }

  /** Up to sixteen bits, the first one sent in the lowest place. */
  function Value(bits: Bits): bv16
    requires |bits| <= 16
  {
    if bits == [] then 0
    else
      var n := |bits| - 1;
      if bits[n] then Xor(Value(bits[..n]), One(n)) else Value(bits[..n])
  }

  lemma ShiftOne(n: nat)
    requires 0 < n < 16
    ensures Shift(One(n)) == One(n - 1)
  {
  }

  lemma {:induction false} ShiftsOne(n: nat, m: nat)
    requires m <= n < 16
    ensures Shifts(One(n), m) == One(n - m)
  {
    hide Shift, One;
    if m > 0 {
      ShiftsOne(n, m - 1);
      ShiftOne(n - m + 1);
    }
  }

  lemma OneZero()
    ensures One(0) == 1
  {
  }

  function And(c: bv16, d: bv16): bv16 {
    c & d
  }

  predicate BitAt(v: bv16, i: nat)
    requires i < 16
  {
    And(v, One(i)) != 0
  }

  lemma AndOne(v: bv16, i: nat)
    requires i < 16
    ensures And(v, One(i)) == 0 || And(v, One(i)) == One(i)
    ensures And(0, v) == 0
    ensures One(i) != 0
  {
  }

  lemma AndOnes(n: nat, i: nat)
    requires n < 16 && i < 16
    ensures And(One(n), One(i)) == if n == i then One(i) else 0
  {
  }

  lemma XorAnd(u: bv16, v: bv16, p: bv16)
    ensures And(Xor(u, v), p) == Xor(And(u, p), And(v, p))
  {
  }

  lemma FlipsBit(v: bv16, n: nat, i: nat)
    requires n < 16 && i < 16
    ensures BitAt(Xor(v, One(n)), i) == (BitAt(v, i) != (n == i))
  {
    hide And, Xor, One;
    XorAnd(v, One(n), One(i));
    AndOne(v, i);
    AndOnes(n, i);
    XorZero(And(v, One(i)), One(i));
    XorZeroIs(And(v, One(i)));
    XorZeroIs(One(i));
  }

  lemma {:induction false} ValueBits(bits: Bits, i: nat)
    requires |bits| <= 16 && i < 16
    ensures BitAt(Value(bits), i) <==> i < |bits| && bits[i]
  {
    hide And, Xor, One;
    if bits == [] {
      AndOne(One(i), i);
    } else {
      ValueBits(bits[..|bits| - 1], i);
      FlipsBit(Value(bits[..|bits| - 1]), |bits| - 1, i);
    }
  }

  /** Different bits have different values. */
  lemma ValueInjective(a: Bits, b: Bits)
    requires |a| == |b| <= 16
    ensures Value(a) == Value(b) <==> a == b
  {
    hide BitAt, Value;
    if Value(a) == Value(b) {
      forall i | 0 <= i < |a| ensures a[i] == b[i] {
        ValueBits(a, i);
        ValueBits(b, i);
      }
    }
  }

  lemma XorZeroIs(c: bv16)
    ensures Xor(c, 0) == c && Xor(0, c) == c
  {
  }

  lemma XorAssoc(a: bv16, b: bv16, c: bv16)
    ensures Xor(Xor(a, b), c) == Xor(a, Xor(b, c))
  {
  }

  /** Up to sixteen bits fed one by one are as good as their value fed at once. */
  lemma {:induction false} FeedIsShifts(c: bv16, bits: Bits)
    requires |bits| <= 16
    ensures Feed(c, bits) == Shifts(Xor(c, Value(bits)), |bits|)
  {
    hide Shift, Xor, One;
    if bits == [] {
      XorZeroIs(c);
    } else {
      var n := |bits| - 1;
      var before := Value(bits[..n]);
      FeedIsShifts(c, bits[..n]);
      if bits[n] {
        ShiftsOne(n, n);
        OneZero();
        ShiftsXor(Xor(c, before), One(n), n);
        XorAssoc(c, before, One(n));
      } else {
        XorZeroIs(Feed(c, bits[..n]));
      }
    }
  }

  /** Numbers with equal bits are equal: the bits determine the lower, then the upper half. */
  lemma SameBits(u: bv16, v: bv16)
    requires forall i | 0 <= i < 16 :: BitAt(u, i) == BitAt(v, i)
    ensures u == v
  {
    hide BitAt, And, One;
    forall i | 0 <= i < 16 ensures And(u, One(i)) == And(v, One(i)) { BitIs(u, v, i); }
    SameQuarter(u, v, 0);
    SameQuarter(u, v, 4);
    SameQuarter(u, v, 8);
    SameQuarter(u, v, 12);
    Quarters(u, v);
  }

  lemma BitIs(u: bv16, v: bv16, i: nat)
    requires i < 16 && BitAt(u, i) == BitAt(v, i)
    ensures And(u, One(i)) == And(v, One(i))
  {
    hide And, One;
    AndOne(u, i);
    AndOne(v, i);
  }

  function Quarter(i: nat): bv16 {
    if i == 0 then 0x000F else if i == 4 then 0x00F0 else if i == 8 then 0x0F00 else 0xF000
  }

  lemma SameQuarter(u: bv16, v: bv16, i: nat)
    requires i == 0 || i == 4 || i == 8 || i == 12
    requires forall k | i <= k < i + 4 :: And(u, One(k)) == And(v, One(k))
    ensures And(u, Quarter(i)) == And(v, Quarter(i))
  {
    hide And, One, Quarter;
    var o, p, q, r := One(i), One(i + 1), One(i + 2), One(i + 3);
    assert And(u, o) == And(v, o) && And(u, p) == And(v, p) && And(u, q) == And(v, q) && And(u, r) == And(v, r);
    QuarterIs(i);
    Masks(u, o, p, q, r);
    Masks(v, o, p, q, r);
  }

  lemma QuarterIs(i: nat)
    requires i == 0 || i == 4 || i == 8 || i == 12
    ensures Quarter(i) == Or(Or(One(i), One(i + 1)), Or(One(i + 2), One(i + 3)))
  {
  }

  function Or(c: bv16, d: bv16): bv16 {
    c | d
  }

  lemma Masks(u: bv16, o: bv16, p: bv16, q: bv16, r: bv16)
    ensures And(u, Or(Or(o, p), Or(q, r))) == Or(Or(And(u, o), And(u, p)), Or(And(u, q), And(u, r)))
  {
  }

  lemma Quarters(u: bv16, v: bv16)
    requires And(u, Quarter(0)) == And(v, Quarter(0)) && And(u, Quarter(4)) == And(v, Quarter(4))
    requires And(u, Quarter(8)) == And(v, Quarter(8)) && And(u, Quarter(12)) == And(v, Quarter(12))
    ensures u == v
  {
  }

  lemma LowBits(b: bv8, i: nat)
    requires i < 16
    ensures BitAt(Low(b), i) <==> i < 8 && ByteBits(b)[i]
  {
  }

  lemma ValueOfByte(b: bv8)
    ensures Value(ByteBits(b)) == Low(b)
  {
    hide BitAt, Value, Low, ByteBits;
    assert |ByteBits(b)| == 8 by { EightBits(b); }
    forall i | 0 <= i < 16 ensures BitAt(Value(ByteBits(b)), i) == BitAt(Low(b), i) {
      ValueBits(ByteBits(b), i);
      LowBits(b, i);
    }
    SameBits(Value(ByteBits(b)), Low(b));
  }

  lemma EightBits(b: bv8)
    ensures |ByteBits(b)| == 8
  {
  }

  // ----- what a checksum detects -----

  lemma ByteFeed(c: bv16, b: bv8)
    ensures StandardByte(c, b) == Feed(c, ByteBits(b))
  {
    hide *;
    EightBits(b);
    FeedIsShifts(c, ByteBits(b));
    ValueOfByte(b);
    StandardParts(c, b);
    Shift8Is(Xor(c, Low(b)));
  }

  lemma {:induction false} FeedAppend(c: bv16, a: Bits, b: Bits)
    ensures Feed(c, a + b) == Feed(Feed(c, a), b)
  {
    hide Shift, Xor;
    if b == [] {
      assert a + b == a;
    } else {
      var n := |b| - 1;
      FeedAppend(c, a, b[..n]);
      assert (a + b)[..|a| + n] == a + b[..n];
    }
  }

  /** A message is a sequence of bits for the standard's register. */
  lemma {:induction false} RegisterIsFeed(c: bv16, m: Bytes)
    ensures Register(c, m) == Feed(c, BitsOf(m))
  {
    hide StandardByte, Feed, ByteBits;
    if m == [] {
      assert Feed(c, []) == c by { FeedNothing(c); }
    } else {
      var n := |m| - 1;
      RegisterIsFeed(c, m[..n]);
      FeedAppend(c, BitsOf(m[..n]), ByteBits(m[n]));
      ByteFeed(Register(c, m[..n]), m[n]);
    }
  }

  lemma FeedNothing(c: bv16)
    ensures Feed(c, []) == c
  {
  }

  /** The same bits keep different registers different. */
  lemma {:induction false} FeedInjective(c: bv16, d: bv16, bits: Bits)
    ensures Feed(c, bits) == Feed(d, bits) <==> c == d
  {
    hide Shift, Xor;
    if bits != [] {
      var n := |bits| - 1;
      var b: bv16 := if bits[n] then 1 else 0;
      var x, y := Feed(c, bits[..n]), Feed(d, bits[..n]);
      FeedInjective(c, d, bits[..n]);
      XorInjective(x, y, b);
      assert Shift(Xor(x, b)) == Shift(Xor(y, b)) <==> x == y by { ShiftInjective(Xor(x, b), Xor(y, b)); }
    }
  }

  lemma XorInjective(c: bv16, d: bv16, b: bv16)
    ensures Xor(c, b) == Xor(d, b) <==> c == d
  {
    hide Xor;
    XorTwice(c, b);
    XorTwice(d, b);
    XorMoves(c, b, Xor(d, b));
  }

  lemma ShiftInjective(c: bv16, d: bv16)
    ensures Shift(c) == Shift(d) <==> c == d
  {
    hide Shift;
    ShiftsInjective(c, d, 1);
    assert Shifts(c, 1) == Shift(Shifts(c, 0)) && Shifts(d, 1) == Shift(Shifts(d, 0));
  }

  /** Up to sixteen bits move every register to a different one for every choice of them. */
  lemma WindowInjective(c: bv16, a: Bits, b: Bits)
    requires |a| == |b| <= 16
    ensures Feed(c, a) == Feed(c, b) <==> a == b
  {
    hide *;
    FeedIsShifts(c, a);
    FeedIsShifts(c, b);
    ShiftsInjective(Xor(c, Value(a)), Xor(c, Value(b)), |a|);
    XorOther(c, Value(a), Value(b));
    ValueInjective(a, b);
  }

  lemma XorOther(c: bv16, u: bv16, v: bv16)
    ensures Xor(c, u) == Xor(c, v) <==> u == v
  {
    hide Xor;
    XorComm(c, u);
    XorComm(c, v);
    XorInjective(u, v, c);
  }

  /** The bits outside the window from s to s + 16 are the same. */
  predicate SameOutside(a: Bits, b: Bits, s: nat) {
    && |a| == |b|
    && s <= |a|
    && a[..s] == b[..s]
    && a[End(a, s)..] == b[End(b, s)..]
  }

  function End(a: Bits, s: nat): (r: nat)
    requires s <= |a|
    ensures s <= r <= |a| && r <= s + 16
  {
    if s + 16 <= |a| then s + 16 else |a|
  }

  lemma Window(c: bv16, a: Bits, s: nat)
    requires s <= |a|
    ensures Feed(c, a) == Feed(Feed(Feed(c, a[..s]), a[s..End(a, s)]), a[End(a, s)..])
  {
    var e := End(a, s);
    assert a == a[..e] + a[e..] && a[..e] == a[..s] + a[s..e];
    FeedAppend(c, a[..e], a[e..]);
    FeedAppend(c, a[..s], a[s..e]);
  }

  lemma BurstMoves(c: bv16, a: Bits, b: Bits, s: nat)
    requires SameOutside(a, b, s)
    ensures Feed(c, a) == Feed(c, b) <==> a == b
  {
    hide Feed;
    var e := End(a, s);
    Window(c, a, s);
    Window(c, b, s);
    var x, y := a[s..e], b[s..e];
    FeedInjective(Feed(Feed(c, a[..s]), x), Feed(Feed(c, a[..s]), y), a[e..]);
    WindowInjective(Feed(c, a[..s]), x, y);
    if x == y {
      assert a == a[..s] + x + a[e..] == b[..s] + y + b[e..] == b;
    }
  }

  lemma ByteBitsInjective(b: bv8, c: bv8)
    ensures ByteBits(b) == ByteBits(c) <==> b == c
  {
    hide ByteBits, Value, Low;
    ValueOfByte(b);
    ValueOfByte(c);
    LowXor(b, c);
    LowIs(b, c);
  }

  lemma LowIs(b: bv8, c: bv8)
    ensures Low(b) == Low(c) <==> b == c
  {
  }

  lemma {:induction false} BitsInjective(f: Bytes, g: Bytes)
    requires |f| == |g|
    ensures BitsOf(f) == BitsOf(g) <==> f == g
  {
    hide ByteBits;
    if f != [] {
      var n := |f| - 1;
      BitsInjective(f[..n], g[..n]);
      ByteBitsInjective(f[n], g[n]);
      SameParts(BitsOf(f[..n]), ByteBits(f[n]), BitsOf(g[..n]), ByteBits(g[n]));
      assert f == f[..n] + [f[n]] && g == g[..n] + [g[n]];
    }
  }

  lemma SameParts(a: Bits, b: Bits, c: Bits, d: Bits)
    requires |a| == |c|
    ensures a + b == c + d <==> a == c && b == d
  {
    assert (a + b)[..|a|] == a && (c + d)[..|a|] == c && (a + b)[|a|..] == b && (c + d)[|a|..] == d;
  }

  /** No corruption of a frame within sixteen consecutive bits is accepted. */
  lemma BurstRejected(f: Bytes, g: Bytes, s: nat)
    requires 2 <= |f| == |g| < 0x10002
    requires Accepts(f) && f != g && SameOutside(BitsOf(f), BitsOf(g), s)
    ensures !Accepts(g)
  {
    hide Register, Feed, Accepts;
    Residue(f);
    Residue(g);
    RegisterIsFeed(0xFFFF, f);
    RegisterIsFeed(0xFFFF, g);
    BurstMoves(0xFFFF, BitsOf(f), BitsOf(g), s);
    BitsInjective(f, g);
  }

  // ----- parity -----

  /** Whether an odd number of the lowest n bits is set. */
  predicate Odd(c: bv16, n: nat)
    requires n <= 16
  {
    n > 0 && Odd(c, n - 1) != BitAt(c, n - 1)
  }

  predicate Parity(c: bv16) {
    Odd(c, 16)
  }

  lemma XorBit(u: bv16, v: bv16, i: nat)
    requires i < 16
    ensures BitAt(Xor(u, v), i) == (BitAt(u, i) != BitAt(v, i))
  {
    hide And, Xor, One;
    XorAnd(u, v, One(i));
    AndOne(u, i);
    AndOne(v, i);
    XorZero(And(u, One(i)), And(v, One(i)));
  }

  lemma HalfBit(c: bv16, i: nat)
    requires i < 16
    ensures BitAt(Half(c), i) <==> i < 15 && BitAt(c, i + 1)
  {
  }

  /** The terms of the polynomial. */
  predicate Tap(i: nat) {
    i == 0 || i == 13 || i == 15
  }

  lemma FeedbackBit(c: bv16, i: nat)
    requires i < 16
    ensures BitAt(Feedback(c), i) <==> BitAt(c, 0) && Tap(i)
  {
  }

  lemma ShiftBit(c: bv16, i: nat)
    requires i < 16
    ensures BitAt(Shift(c), i) == ((i < 15 && BitAt(c, i + 1)) != (BitAt(c, 0) && Tap(i)))
  {
    hide *;
    ShiftParts(c);
    XorBit(Half(c), Feedback(c), i);
    HalfBit(c, i);
    FeedbackBit(c, i);
  }

  lemma {:induction false} ShiftOdd(c: bv16, n: nat)
    requires n <= 15
    ensures Odd(Shift(c), n) == (Odd(c, n + 1) != (BitAt(c, 0) && !(1 <= n <= 13)))
  {
    hide Shift, BitAt;
    if n > 0 {
      ShiftOdd(c, n - 1);
      ShiftBit(c, n - 1);
    }
  }

  /** With the bit shifted out, the polynomial has an even number of terms, so that shifting
      keeps the parity. */
  lemma ShiftParity(c: bv16)
    ensures Parity(Shift(c)) == Parity(c)
  {
    hide Shift, BitAt;
    ShiftOdd(c, 15);
    ShiftBit(c, 15);
  }

  lemma {:induction false} FlipOdd(c: bv16, n: nat)
    requires n <= 16
    ensures Odd(Xor(c, One(0)), n) == (Odd(c, n) != (n > 0))
  {
    hide BitAt, Xor, One;
    if n > 0 {
      FlipOdd(c, n - 1);
      FlipsBit(c, 0, n - 1);
    }
  }

  lemma FlipParity(c: bv16)
    ensures Parity(Xor(c, 1)) == !Parity(c)
  {
    hide Odd, Xor, One;
    OneZero();
    FlipOdd(c, 16);
  }

  lemma {:induction false} ConstantOdd(n: nat)
    requires n <= 16
    ensures !Odd(0, n) && (Odd(0xFFFF, n) <==> n % 2 == 1)
  {
    hide BitAt;
    if n > 0 {
      ConstantOdd(n - 1);
      ConstantBit(n - 1);
    }
  }

  lemma ConstantBit(i: nat)
    requires i < 16
    ensures !BitAt(0, i) && BitAt(0xFFFF, i)
  {
  }

  predicate OddOnes(bits: Bits) {
    bits != [] && (bits[|bits| - 1] != OddOnes(bits[..|bits| - 1]))
  }

  lemma {:induction false} FeedParity(c: bv16, bits: Bits)
    ensures Parity(Feed(c, bits)) == (Parity(c) != OddOnes(bits))
  {
    hide Shift, Xor, Parity;
    if bits != [] {
      var n := |bits| - 1;
      var x := Feed(c, bits[..n]);
      FeedParity(c, bits[..n]);
      FlipParity(x);
      XorZeroIs(x);
      ShiftParity(Xor(x, if bits[n] then 1 else 0));
    }
  }

  /** The number of places where two sequences of bits differ. */
  function Differences(a: Bits, b: Bits): nat
    requires |a| == |b|
  {
    if a == [] then 0
    else
      var n := |a| - 1;
      Differences(a[..n], b[..n]) + if a[n] == b[n] then 0 else 1
  }

  lemma {:induction false} OddDifferences(a: Bits, b: Bits)
    requires |a| == |b|
    ensures Differences(a, b) % 2 == 1 <==> OddOnes(a) != OddOnes(b)
  {
    if a != [] {
      OddDifferences(a[..|a| - 1], b[..|b| - 1]);
    }
  }

  lemma AcceptedIsEven(f: Bytes)
    requires 2 <= |f| < 0x10002
    ensures Accepts(f) ==> !OddOnes(BitsOf(f))
  {
    hide Register, Feed, Accepts, OddOnes, BitsOf, Odd;
    ConstantOdd(16);
    Residue(f);
    RegisterIsFeed(0xFFFF, f);
    FeedParity(0xFFFF, BitsOf(f));
  }

  /** No corruption of an odd number of bits is accepted, wherever they are. */
  lemma OddRejected(f: Bytes, g: Bytes)
    requires 2 <= |f| == |g| < 0x10002 && Accepts(f) && Differences(BitsOf(f), BitsOf(g)) % 2 == 1
    ensures !Accepts(g)
  {
    hide Accepts, OddOnes;
    AcceptedIsEven(f);
    AcceptedIsEven(g);
    OddDifferences(BitsOf(f), BitsOf(g));
  }

  lemma {:induction false} BitsAppend(f: Bytes, g: Bytes)
    ensures BitsOf(f + g) == BitsOf(f) + BitsOf(g)
  {
    hide ByteBits;
    if g == [] {
      assert f + g == f;
    } else {
      var n := |g| - 1;
      BitsAppend(f, g[..n]);
      assert (f + g)[..|f| + n] == f + g[..n];
    }
  }

  /** Only bytes k and k + 1 may differ. */
  predicate SameButTwo(f: Bytes, g: Bytes, k: nat) {
    |f| == |g| && forall i | 0 <= i < |f| && i != k && i != k + 1 :: f[i] == g[i]
  }

  lemma TwoBytesAreBurst(f: Bytes, g: Bytes, k: nat)
    requires SameButTwo(f, g, k) && k + 2 <= |f|
    ensures SameOutside(BitsOf(f), BitsOf(g), 8 * k)
  {
    ThreeParts(f, k);
    ThreeParts(g, k);
    assert f[..k] == g[..k] && f[k + 2..] == g[k + 2..];
  }

  lemma ThreeParts(f: Bytes, k: nat)
    requires k + 2 <= |f|
    ensures BitsOf(f)[..8 * k] == BitsOf(f[..k])
    ensures BitsOf(f)[8 * k + 16..] == BitsOf(f[k + 2..])
  {
    hide BitsOf;
    assert f == f[..k + 2] + f[k + 2..] && f[..k + 2] == f[..k] + f[k..k + 2];
    BitsAppend(f[..k + 2], f[k + 2..]);
    BitsAppend(f[..k], f[k..k + 2]);
  }

  /** Whether no accepted frame of a length stays accepted when two adjacent bytes change. */
  ghost predicate DetectsTwoBytes(n: nat)
    requires n >= 2
  {
    forall f: Bytes, g: Bytes, k: nat |
      |f| == n && Accepts(f) && f != g && k + 2 <= n && SameButTwo(f, g, k) :: !Accepts(g)
  }

  /** This holds exactly for frames whose message length fits the routine's sixteen bits. */
  lemma DetectsTwoBytesIff(n: nat)
    requires n >= 2
    ensures DetectsTwoBytes(n) <==> n < 0x10002
  {
    hide Accepts;
    if n < 0x10002 {
      forall f: Bytes, g: Bytes, k: nat |
        |f| == n && Accepts(f) && f != g && k + 2 <= n && SameButTwo(f, g, k) ensures !Accepts(g)
      {
        TwoBytesAreBurst(f, g, k);
        BurstRejected(f, g, 8 * k);
      }
    } else {
      var m := seq(n - 3, i => 0);
      var f, g := Frame(m + [0]), Frame(m + [1]);
      FrameIsStandard(m + [0]);
      FrameIsStandard(m + [1]);
      UncountedByte(m, 0, 1);
      assert f[n - 3] != g[n - 3] && SameButTwo(f, g, n - 3);
    }
  }

  lemma UncountedByte(m: Bytes, x: bv8, y: bv8)
    requires |m| + 1 >= 0x10000
    ensures Checksum(m + [x]) == Checksum(m + [y])
    ensures Length16(|m| + 1) <= |m|
  {
    hide Run;
    assert (m + [x])[..Length16(|m| + 1)] == (m + [y])[..Length16(|m| + 1)];
  }

  /** The checksum appended is the standard's for every message of a length exactly when
      the length fits. */
  lemma ChecksumIsStandardIff(n: nat)
    ensures (forall m: Bytes | |m| == n :: Swapped(Checksum(m)) == Standard(m)) <==> n < 0x10000
  {
    hide Run, Register, Swapped, Standard;
    if n < 0x10000 {
      forall m: Bytes | |m| == n ensures Swapped(Checksum(m)) == Standard(m) {
        assert m[..n] == m;
        RunIsStandard(m);
      }
    } else {
      var m := seq(n - 1, i => 0);
      UncountedByte(m, 0, 1);
      LastByteMatters(m, 0, 1);
      assert |m + [0]| == n && |m + [1]| == n;
    }
  }

  lemma LastByteMatters(m: Bytes, x: bv8, y: bv8)
    ensures Standard(m + [x]) == Standard(m + [y]) <==> x == y
  {
    hide StandardByte, Xor, Low;
    var c := Standard(m);
    assert (m + [x])[..|m|] == m && (m + [y])[..|m|] == m;
    StandardParts(c, x);
    StandardParts(c, y);
    Shift8Injective(Xor(c, Low(x)), Xor(c, Low(y)));
    XorOther(c, Low(x), Low(y));
    LowIs(x, y);
  }

  // ----- the routines -----

  method Crc16(buffer: array<bv8>, length: nat) returns (crc: bv16)
    requires length < 0x10000 && length <= buffer.Length
    ensures crc == Join(Run(INIT, buffer[..length]).hi, Run(INIT, buffer[..length]).lo)
  {
    hide Run, Step, TableCrcHi, TableCrcLo, Xor8, Join;
    var hi: bv8, lo: bv8 := 0xFF, 0xFF;
    var n := 0;
    RunNothing();
    while n < length
      invariant n <= length
      invariant Crc(hi, lo) == Run(INIT, buffer[..n])
    {
      var i := Xor8(hi, buffer[n]);
      RunOn(buffer[..n], buffer[n]);
      assert buffer[..n] + [buffer[n]] == buffer[..n + 1];
      StepParts(Crc(hi, lo), buffer[n]);
      hi := Xor8(lo, TableCrcHi(i));
      lo := TableCrcLo(i);
      n := n + 1;
    }
    crc := Join(hi, lo);
  }

  lemma RunNothing()
    ensures Run(INIT, []) == INIT
  {
  }

  lemma RunOn(m: Bytes, b: bv8)
    ensures Run(INIT, m + [b]) == Step(Run(INIT, m), b)
  {
    hide Step;
    assert (m + [b])[..|m|] == m;
  }

  lemma JoinParts(hi: bv8, lo: bv8)
    ensures (Join(hi, lo) >> 8) as bv8 == hi && (Join(hi, lo) & 0x00FF) as bv8 == lo
  {
  }

  lemma JoinInjective(c: Crc, d: Crc)
    ensures Join(c.hi, c.lo) == Join(d.hi, d.lo) <==> c == d
  {
    hide Join;
    JoinParts(c.hi, c.lo);
    JoinParts(d.hi, d.lo);
  }

  /** Appends the checksum to the message in the buffer. */
  method SendMsgPre(req: array<bv8>, length: nat) returns (sent: nat)
    requires length + 2 <= req.Length
    modifies req
    ensures sent == length + 2
    ensures req[..sent] == Frame(old(req[..length]))
    ensures req[sent..] == old(req[sent..])
  {
    hide Run, Join;
    var crc := Crc16(req, Length16(length));
    ghost var m := req[..length];
    assert req[..Length16(length)] == m[..Length16(length)];
    JoinParts(Checksum(m).hi, Checksum(m).lo);
    req[length] := (crc >> 8) as bv8;
    req[length + 1] := (crc & 0x00FF) as bv8;
    sent := length + 2;
    assert req[..sent] == m + [req[length], req[length + 1]];
  }

  /** The length of a message whose checksum is right, otherwise -1. */
  method CheckIntegrity(msg: array<bv8>, length: nat) returns (r: int)
    requires 2 <= length <= msg.Length
    ensures r == if Accepts(msg[..length]) then length else -1
  {
    hide Run, Join;
    var n := length - 2;
    var calculated := Crc16(msg, Length16(n));
    var received := Join(msg[n], msg[n + 1]);
    assert msg[..Length16(n)] == msg[..length][..n][..Length16(n)];
    JoinInjective(Checksum(msg[..length][..n]), Crc(msg[n], msg[n + 1]));
    r := if calculated == received then length else -1;
  }
}
