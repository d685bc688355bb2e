/** CRC16 with polynomial 0x1021: by table, one byte at a time, and by definition, one bit at a time.  A 16-bit number
    is its sixteen bits. */
module Crc {
  // ---- the register, bit by bit --------------------------------------------------------------

  /** Sixteen bits. */
  datatype Word = Word(
    b15: bool, b14: bool, b13: bool, b12: bool, b11: bool, b10: bool, b9: bool, b8: bool,
    b7: bool, b6: bool, b5: bool, b4: bool, b3: bool, b2: bool, b1: bool, b0: bool)

  const ZERO := Word(false, false, false, false, false, false, false, false,
                     false, false, false, false, false, false, false, false)

  /** The bits of a 16-bit number. */
  function Bits(x: bv16): Word {
    Word(x & 0x8000 != 0, x & 0x4000 != 0, x & 0x2000 != 0, x & 0x1000 != 0,
         x & 0x800 != 0, x & 0x400 != 0, x & 0x200 != 0, x & 0x100 != 0,
         x & 0x80 != 0, x & 0x40 != 0, x & 0x20 != 0, x & 0x10 != 0, x & 8 != 0, x & 4 != 0, x & 2 != 0, x & 1 != 0)
  }

  /** One bit of the message enters the shift register of x^16 + x^12 + x^5 + 1. */
  function Shift(x: Word, bit: bool): Word {
    var t := x.b15 != bit;
    Word(x.b14, x.b13, x.b12, x.b11 != t, x.b10, x.b9, x.b8, x.b7, x.b6, x.b5, x.b4 != t, x.b3, x.b2, x.b1, x.b0, t)
  }

  function Shift4(x: Word, p3: bool, p2: bool, p1: bool, p0: bool): Word {
    Shift(Shift(Shift(Shift(x, p3), p2), p1), p0)
  }

  /** The eight bits of a byte, the highest first. */
  function ShiftByte(x: Word, p7: bool, p6: bool, p5: bool, p4: bool, p3: bool, p2: bool, p1: bool, p0: bool): Word {
    Shift4(Shift4(x, p7, p6, p5, p4), p3, p2, p1, p0)
  }

  // ---- the register is linear ----------------------------------------------------------------

  function Xor(x: Word, y: Word): Word {
    Word(x.b15 != y.b15, x.b14 != y.b14, x.b13 != y.b13, x.b12 != y.b12,
         x.b11 != y.b11, x.b10 != y.b10, x.b9 != y.b9, x.b8 != y.b8,
         x.b7 != y.b7, x.b6 != y.b6, x.b5 != y.b5, x.b4 != y.b4, x.b3 != y.b3, x.b2 != y.b2, x.b1 != y.b1, x.b0 != y.b0)
  }

  lemma ShiftXor(x: Word, y: Word, p: bool, q: bool, r: bool)
    requires r == (p != q)
    ensures Shift(Xor(x, y), r) == Xor(Shift(x, p), Shift(y, q))
  {
  }

  lemma Shift4Xor(x: Word, y: Word, p3: bool, p2: bool, p1: bool, p0: bool, q3: bool, q2: bool, q1: bool, q0: bool,
      r3: bool, r2: bool, r1: bool, r0: bool)
    requires r3 == (p3 != q3) && r2 == (p2 != q2) && r1 == (p1 != q1) && r0 == (p0 != q0)
    ensures Shift4(Xor(x, y), r3, r2, r1, r0) == Xor(Shift4(x, p3, p2, p1, p0), Shift4(y, q3, q2, q1, q0))
  {
    var x1, y1 := Shift(x, p3), Shift(y, q3);
    var x2, y2 := Shift(x1, p2), Shift(y1, q2);
    var x3, y3 := Shift(x2, p1), Shift(y2, q1);
    ShiftXor(x, y, p3, q3, r3);
    ShiftXor(x1, y1, p2, q2, r2);
    ShiftXor(x2, y2, p1, q1, r1);
    ShiftXor(x3, y3, p0, q0, r0);
  }

  lemma ByteXor(x: Word, y: Word, p7: bool, p6: bool, p5: bool, p4: bool, p3: bool, p2: bool, p1: bool, p0: bool,
      q7: bool, q6: bool, q5: bool, q4: bool, q3: bool, q2: bool, q1: bool, q0: bool,
      r7: bool, r6: bool, r5: bool, r4: bool, r3: bool, r2: bool, r1: bool, r0: bool)
    requires r7 == (p7 != q7) && r6 == (p6 != q6) && r5 == (p5 != q5) && r4 == (p4 != q4)
    requires r3 == (p3 != q3) && r2 == (p2 != q2) && r1 == (p1 != q1) && r0 == (p0 != q0)
    ensures ShiftByte(Xor(x, y), r7, r6, r5, r4, r3, r2, r1, r0) ==
            Xor(ShiftByte(x, p7, p6, p5, p4, p3, p2, p1, p0), ShiftByte(y, q7, q6, q5, q4, q3, q2, q1, q0))
  {
    Shift4Xor(x, y, p7, p6, p5, p4, q7, q6, q5, q4, r7, r6, r5, r4);
    Shift4Xor(Shift4(x, p7, p6, p5, p4), Shift4(y, q7, q6, q5, q4), p3, p2, p1, p0, q3, q2, q1, q0, r3, r2, r1, r0);
  }

  // ---- eight bits at once --------------------------------------------------------------------

  function Up8(x: Word): Word {
    Word(x.b7, x.b6, x.b5, x.b4, x.b3, x.b2, x.b1, x.b0, false, false, false, false, false, false, false, false)
  }

  function Down8(x: Word): Word {
    Word(false, false, false, false, false, false, false, false, x.b15, x.b14, x.b13, x.b12, x.b11, x.b10, x.b9, x.b8)
  }

  function Nibbles(p3: bool, p2: bool, p1: bool, p0: bool, q3: bool, q2: bool, q1: bool, q0: bool): Word {
    Word(p3, p2, p1, p0, q3, q2, q1, q0, false, false, false, false, false, false, false, false)
  }

  /** The low half just moves up; the high half acts as if it had come with the message. */
  lemma LowMoves(x: Word)
    ensures ShiftByte(Down8(Up8(x)), false, false, false, false, false, false, false, false) == Up8(x)
  {
  }

  lemma TopActs(p3: bool, p2: bool, p1: bool, p0: bool)
    ensures Shift4(Nibbles(p3, p2, p1, p0, false, false, false, false), false, false, false, false) ==
            Shift4(ZERO, p3, p2, p1, p0)
    ensures Shift4(Nibbles(false, false, false, false, p3, p2, p1, p0), false, false, false, false) ==
            Nibbles(p3, p2, p1, p0, false, false, false, false)
  {
  }

  lemma TwoNibbles(p3: bool, p2: bool, p1: bool, p0: bool, q3: bool, q2: bool, q1: bool, q0: bool)
    ensures Nibbles(p3, p2, p1, p0, q3, q2, q1, q0) ==
            Xor(Nibbles(p3, p2, p1, p0, false, false, false, false), Nibbles(false, false, false, false, q3, q2, q1, q0))
  {
  }

  lemma XorZero(b: Word)
    ensures Xor(b, ZERO) == b
  {
    assert b == Word(b.b15, b.b14, b.b13, b.b12, b.b11, b.b10, b.b9, b.b8, b.b7, b.b6, b.b5, b.b4, b.b3, b.b2, b.b1, b.b0);
  }

  lemma HighActs4(p3: bool, p2: bool, p1: bool, p0: bool, q3: bool, q2: bool, q1: bool, q0: bool)
    ensures Shift4(Shift4(Nibbles(p3, p2, p1, p0, q3, q2, q1, q0), false, false, false, false), false, false, false, false) ==
            Shift4(Shift4(ZERO, p3, p2, p1, p0), q3, q2, q1, q0)
  {
    var t, m := Nibbles(p3, p2, p1, p0, false, false, false, false), Nibbles(false, false, false, false, q3, q2, q1, q0);
    var u, b := Nibbles(q3, q2, q1, q0, false, false, false, false), Shift4(ZERO, p3, p2, p1, p0);
    TwoNibbles(p3, p2, p1, p0, q3, q2, q1, q0);
    Shift4Xor(t, m, false, false, false, false, false, false, false, false, false, false, false, false);
    TopActs(p3, p2, p1, p0);
    TopActs(q3, q2, q1, q0);
    Shift4Xor(b, u, false, false, false, false, false, false, false, false, false, false, false, false);
    Shift4Xor(b, ZERO, false, false, false, false, q3, q2, q1, q0, q3, q2, q1, q0);
    XorZero(b);
  }

  lemma Halves(x: Word)
    ensures x == Xor(Up8(Down8(x)), Down8(Up8(x)))
  {
    assert x == Word(x.b15, x.b14, x.b13, x.b12, x.b11, x.b10, x.b9, x.b8, x.b7, x.b6, x.b5, x.b4, x.b3, x.b2, x.b1, x.b0);
  }

  lemma XorSwaps(x: Word, y: Word)
    ensures Xor(x, y) == Xor(y, x)
  {
  }

  lemma LowPart(x: Word, p7: bool, p6: bool, p5: bool, p4: bool, p3: bool, p2: bool, p1: bool, p0: bool)
    ensures ShiftByte(x, p7, p6, p5, p4, p3, p2, p1, p0) == Xor(Up8(x), ShiftByte(Up8(Down8(x)), p7, p6, p5, p4, p3, p2, p1, p0))
  {
    var high, low := Up8(Down8(x)), Down8(Up8(x));
    Halves(x);
    ByteXor(high, low, p7, p6, p5, p4, p3, p2, p1, p0, false, false, false, false, false, false, false, false,
            p7, p6, p5, p4, p3, p2, p1, p0);
    LowMoves(x);
    XorSwaps(ShiftByte(high, p7, p6, p5, p4, p3, p2, p1, p0), Up8(x));
  }

  lemma HighPart(p7: bool, p6: bool, p5: bool, p4: bool, p3: bool, p2: bool, p1: bool, p0: bool,
      q7: bool, q6: bool, q5: bool, q4: bool, q3: bool, q2: bool, q1: bool, q0: bool,
      r7: bool, r6: bool, r5: bool, r4: bool, r3: bool, r2: bool, r1: bool, r0: bool)
    requires r7 == (p7 != q7) && r6 == (p6 != q6) && r5 == (p5 != q5) && r4 == (p4 != q4)
    requires r3 == (p3 != q3) && r2 == (p2 != q2) && r1 == (p1 != q1) && r0 == (p0 != q0)
    ensures ShiftByte(Nibbles(p7, p6, p5, p4, p3, p2, p1, p0), q7, q6, q5, q4, q3, q2, q1, q0) ==
            ShiftByte(ZERO, r7, r6, r5, r4, r3, r2, r1, r0)
  {
    var high := Nibbles(p7, p6, p5, p4, p3, p2, p1, p0);
    HighActs4(p7, p6, p5, p4, p3, p2, p1, p0);
    XorZero(high);
    XorZero(ZERO);
    ByteXor(high, ZERO, false, false, false, false, false, false, false, false, q7, q6, q5, q4, q3, q2, q1, q0,
            q7, q6, q5, q4, q3, q2, q1, q0);
    ByteXor(ZERO, ZERO, p7, p6, p5, p4, p3, p2, p1, p0, q7, q6, q5, q4, q3, q2, q1, q0, r7, r6, r5, r4, r3, r2, r1, r0);
  }

  /** A byte through the register: the low half moves up, the high half and the byte act together. */
  lemma OneByte(x: Word, p7: bool, p6: bool, p5: bool, p4: bool, p3: bool, p2: bool, p1: bool, p0: bool,
      r7: bool, r6: bool, r5: bool, r4: bool, r3: bool, r2: bool, r1: bool, r0: bool)
    requires r7 == (x.b15 != p7) && r6 == (x.b14 != p6) && r5 == (x.b13 != p5) && r4 == (x.b12 != p4)
    requires r3 == (x.b11 != p3) && r2 == (x.b10 != p2) && r1 == (x.b9 != p1) && r0 == (x.b8 != p0)
    ensures ShiftByte(x, p7, p6, p5, p4, p3, p2, p1, p0) == Xor(Up8(x), ShiftByte(ZERO, r7, r6, r5, r4, r3, r2, r1, r0))
  {
    LowPart(x, p7, p6, p5, p4, p3, p2, p1, p0);
    HighPart(x.b15, x.b14, x.b13, x.b12, x.b11, x.b10, x.b9, x.b8, p7, p6, p5, p4, p3, p2, p1, p0,
             r7, r6, r5, r4, r3, r2, r1, r0);
  }

  // ---- the table -----------------------------------------------------------------------------

  /** The entry of a row of sixteen that four bits choose. */
  function Pick(p3: bool, p2: bool, p1: bool, p0: bool, a: bv16, b: bv16, c: bv16, d: bv16, e: bv16, f: bv16, g: bv16, h: bv16,
      i: bv16, j: bv16, k: bv16, l: bv16, m: bv16, n: bv16, o: bv16, p: bv16): bv16
  {
    if p3 then
      if p2 then if p1 then if p0 then p else o else if p0 then n else m
      else if p1 then if p0 then l else k else if p0 then j else i
    else
      if p2 then if p1 then if p0 then h else g else if p0 then f else e
      else if p1 then if p0 then d else c else if p0 then b else a
  }

  method Row0(p3: bool, p2: bool, p1: bool, p0: bool) returns (entry: bv16)
    ensures Bits(entry) == ShiftByte(ZERO, false, false, false, false, p3, p2, p1, p0)
  {
    entry := Pick(p3, p2, p1, p0, 0x0000, 0x1021, 0x2042, 0x3063, 0x4084, 0x50a5, 0x60c6, 0x70e7,
                  0x8108, 0x9129, 0xa14a, 0xb16b, 0xc18c, 0xd1ad, 0xe1ce, 0xf1ef);
  }

  method Row1(p3: bool, p2: bool, p1: bool, p0: bool) returns (entry: bv16)
    ensures Bits(entry) == ShiftByte(ZERO, false, false, false, true, p3, p2, p1, p0)
  {
    entry := Pick(p3, p2, p1, p0, 0x1231, 0x0210, 0x3273, 0x2252, 0x52b5, 0x4294, 0x72f7, 0x62d6,
                  0x9339, 0x8318, 0xb37b, 0xa35a, 0xd3bd, 0xc39c, 0xf3ff, 0xe3de);
  }

  method Row2(p3: bool, p2: bool, p1: bool, p0: bool) returns (entry: bv16)
    ensures Bits(entry) == ShiftByte(ZERO, false, false, true, false, p3, p2, p1, p0)
  {
    entry := Pick(p3, p2, p1, p0, 0x2462, 0x3443, 0x0420, 0x1401, 0x64e6, 0x74c7, 0x44a4, 0x5485,
                  0xa56a, 0xb54b, 0x8528, 0x9509, 0xe5ee, 0xf5cf, 0xc5ac, 0xd58d);
  }

  method Row3(p3: bool, p2: bool, p1: bool, p0: bool) returns (entry: bv16)
    ensures Bits(entry) == ShiftByte(ZERO, false, false, true, true, p3, p2, p1, p0)
  {
    entry := Pick(p3, p2, p1, p0, 0x3653, 0x2672, 0x1611, 0x0630, 0x76d7, 0x66f6, 0x5695, 0x46b4,
                  0xb75b, 0xa77a, 0x9719, 0x8738, 0xf7df, 0xe7fe, 0xd79d, 0xc7bc);
  }

  method Row4(p3: bool, p2: bool, p1: bool, p0: bool) returns (entry: bv16)
    ensures Bits(entry) == ShiftByte(ZERO, false, true, false, false, p3, p2, p1, p0)
  {
    entry := Pick(p3, p2, p1, p0, 0x48c4, 0x58e5, 0x6886, 0x78a7, 0x0840, 0x1861, 0x2802, 0x3823,
                  0xc9cc, 0xd9ed, 0xe98e, 0xf9af, 0x8948, 0x9969, 0xa90a, 0xb92b);
  }

  method Row5(p3: bool, p2: bool, p1: bool, p0: bool) returns (entry: bv16)
    ensures Bits(entry) == ShiftByte(ZERO, false, true, false, true, p3, p2, p1, p0)
  {
    entry := Pick(p3, p2, p1, p0, 0x5af5, 0x4ad4, 0x7ab7, 0x6a96, 0x1a71, 0x0a50, 0x3a33, 0x2a12,
                  0xdbfd, 0xcbdc, 0xfbbf, 0xeb9e, 0x9b79, 0x8b58, 0xbb3b, 0xab1a);
  }

  method Row6(p3: bool, p2: bool, p1: bool, p0: bool) returns (entry: bv16)
    ensures Bits(entry) == ShiftByte(ZERO, false, true, true, false, p3, p2, p1, p0)
  {
    entry := Pick(p3, p2, p1, p0, 0x6ca6, 0x7c87, 0x4ce4, 0x5cc5, 0x2c22, 0x3c03, 0x0c60, 0x1c41,
                  0xedae, 0xfd8f, 0xcdec, 0xddcd, 0xad2a, 0xbd0b, 0x8d68, 0x9d49);
  }

  method Row7(p3: bool, p2: bool, p1: bool, p0: bool) returns (entry: bv16)
    ensures Bits(entry) == ShiftByte(ZERO, false, true, true, true, p3, p2, p1, p0)
  {
    entry := Pick(p3, p2, p1, p0, 0x7e97, 0x6eb6, 0x5ed5, 0x4ef4, 0x3e13, 0x2e32, 0x1e51, 0x0e70,
                  0xff9f, 0xefbe, 0xdfdd, 0xcffc, 0xbf1b, 0xaf3a, 0x9f59, 0x8f78);
  }

  method Row8(p3: bool, p2: bool, p1: bool, p0: bool) returns (entry: bv16)
    ensures Bits(entry) == ShiftByte(ZERO, true, false, false, false, p3, p2, p1, p0)
  {
    entry := Pick(p3, p2, p1, p0, 0x9188, 0x81a9, 0xb1ca, 0xa1eb, 0xd10c, 0xc12d, 0xf14e, 0xe16f,
                  0x1080, 0x00a1, 0x30c2, 0x20e3, 0x5004, 0x4025, 0x7046, 0x6067);
  }

  method Row9(p3: bool, p2: bool, p1: bool, p0: bool) returns (entry: bv16)
    ensures Bits(entry) == ShiftByte(ZERO, true, false, false, true, p3, p2, p1, p0)
  {
    entry := Pick(p3, p2, p1, p0, 0x83b9, 0x9398, 0xa3fb, 0xb3da, 0xc33d, 0xd31c, 0xe37f, 0xf35e,
                  0x02b1, 0x1290, 0x22f3, 0x32d2, 0x4235, 0x5214, 0x6277, 0x7256);
  }

  method RowA(p3: bool, p2: bool, p1: bool, p0: bool) returns (entry: bv16)
    ensures Bits(entry) == ShiftByte(ZERO, true, false, true, false, p3, p2, p1, p0)
  {
    entry := Pick(p3, p2, p1, p0, 0xb5ea, 0xa5cb, 0x95a8, 0x8589, 0xf56e, 0xe54f, 0xd52c, 0xc50d,
                  0x34e2, 0x24c3, 0x14a0, 0x0481, 0x7466, 0x6447, 0x5424, 0x4405);
  }

  method RowB(p3: bool, p2: bool, p1: bool, p0: bool) returns (entry: bv16)
    ensures Bits(entry) == ShiftByte(ZERO, true, false, true, true, p3, p2, p1, p0)
  {
    entry := Pick(p3, p2, p1, p0, 0xa7db, 0xb7fa, 0x8799, 0x97b8, 0xe75f, 0xf77e, 0xc71d, 0xd73c,
                  0x26d3, 0x36f2, 0x0691, 0x16b0, 0x6657, 0x7676, 0x4615, 0x5634);
  }

  method RowC(p3: bool, p2: bool, p1: bool, p0: bool) returns (entry: bv16)
    ensures Bits(entry) == ShiftByte(ZERO, true, true, false, false, p3, p2, p1, p0)
  {
    entry := Pick(p3, p2, p1, p0, 0xd94c, 0xc96d, 0xf90e, 0xe92f, 0x99c8, 0x89e9, 0xb98a, 0xa9ab,
                  0x5844, 0x4865, 0x7806, 0x6827, 0x18c0, 0x08e1, 0x3882, 0x28a3);
  }

  method RowD(p3: bool, p2: bool, p1: bool, p0: bool) returns (entry: bv16)
    ensures Bits(entry) == ShiftByte(ZERO, true, true, false, true, p3, p2, p1, p0)
  {
    entry := Pick(p3, p2, p1, p0, 0xcb7d, 0xdb5c, 0xeb3f, 0xfb1e, 0x8bf9, 0x9bd8, 0xabbb, 0xbb9a,
                  0x4a75, 0x5a54, 0x6a37, 0x7a16, 0x0af1, 0x1ad0, 0x2ab3, 0x3a92);
  }

  method RowE(p3: bool, p2: bool, p1: bool, p0: bool) returns (entry: bv16)
    ensures Bits(entry) == ShiftByte(ZERO, true, true, true, false, p3, p2, p1, p0)
  {
    entry := Pick(p3, p2, p1, p0, 0xfd2e, 0xed0f, 0xdd6c, 0xcd4d, 0xbdaa, 0xad8b, 0x9de8, 0x8dc9,
                  0x7c26, 0x6c07, 0x5c64, 0x4c45, 0x3ca2, 0x2c83, 0x1ce0, 0x0cc1);
  }

  method RowF(p3: bool, p2: bool, p1: bool, p0: bool) returns (entry: bv16)
    ensures Bits(entry) == ShiftByte(ZERO, true, true, true, true, p3, p2, p1, p0)
  {
    entry := Pick(p3, p2, p1, p0, 0xef1f, 0xff3e, 0xcf5d, 0xdf7c, 0xaf9b, 0xbfba, 0x8fd9, 0x9ff8,
                  0x6e17, 0x7e36, 0x4e55, 0x5e74, 0x2e93, 0x3eb2, 0x0ed1, 0x1ef0);
  }

  /** The 256-entry table: each entry is what its index does to an empty register. */
  method Lookup(p7: bool, p6: bool, p5: bool, p4: bool, p3: bool, p2: bool, p1: bool, p0: bool) returns (entry: bv16)
    ensures Bits(entry) == ShiftByte(ZERO, p7, p6, p5, p4, p3, p2, p1, p0)
  {
    if p7 {
      if p6 {
        if p5 {
          if p4 {
            entry := RowF(p3, p2, p1, p0);
          } else {
            entry := RowE(p3, p2, p1, p0);
          }
        } else {
          if p4 {
            entry := RowD(p3, p2, p1, p0);
          } else {
            entry := RowC(p3, p2, p1, p0);
          }
        }
      } else {
        if p5 {
          if p4 {
            entry := RowB(p3, p2, p1, p0);
          } else {
            entry := RowA(p3, p2, p1, p0);
          }
        } else {
          if p4 {
            entry := Row9(p3, p2, p1, p0);
          } else {
            entry := Row8(p3, p2, p1, p0);
          }
        }
      }
    } else {
      if p6 {
        if p5 {
          if p4 {
            entry := Row7(p3, p2, p1, p0);
          } else {
            entry := Row6(p3, p2, p1, p0);
          }
        } else {
          if p4 {
            entry := Row5(p3, p2, p1, p0);
          } else {
            entry := Row4(p3, p2, p1, p0);
          }
        }
      } else {
        if p5 {
          if p4 {
            entry := Row3(p3, p2, p1, p0);
          } else {
            entry := Row2(p3, p2, p1, p0);
          }
        } else {
          if p4 {
            entry := Row1(p3, p2, p1, p0);
          } else {
            entry := Row0(p3, p2, p1, p0);
          }
        }
      }
    }
  }

  // ---- the checksum --------------------------------------------------------------------------

  /** One turn: the table entry for the top byte and the data byte, into the register moved up. */
  method TableStep(crc: Word, p7: bool, p6: bool, p5: bool, p4: bool, p3: bool, p2: bool, p1: bool, p0: bool) returns (next: Word)
    ensures next == ShiftByte(crc, p7, p6, p5, p4, p3, p2, p1, p0)
  {
    var r7, r6, r5, r4 := crc.b15 != p7, crc.b14 != p6, crc.b13 != p5, crc.b12 != p4;
    var r3, r2, r1, r0 := crc.b11 != p3, crc.b10 != p2, crc.b9 != p1, crc.b8 != p0;
    var entry := Lookup(r7, r6, r5, r4, r3, r2, r1, r0);
    OneByte(crc, p7, p6, p5, p4, p3, p2, p1, p0, r7, r6, r5, r4, r3, r2, r1, r0);
    next := Xor(Up8(crc), Bits(entry));
  }

  function Up1(x: Word): Word {
    Word(x.b14, x.b13, x.b12, x.b11, x.b10, x.b9, x.b8, x.b7, x.b6, x.b5, x.b4, x.b3, x.b2, x.b1, x.b0, false)
  }

  /** One shift is one step of division by the polynomial 0x1021. */
  lemma ShiftDivides(x: Word, bit: bool)
    ensures Shift(x, bit) == Xor(Up1(x), if x.b15 != bit then Bits(0x1021) else ZERO)
  {
  }

  /** The bit of weight `w` of a byte. */
  predicate BitOf(c: char, w: nat)
    requires w > 0
  {
    (c as int / w) % 2 == 1
  }

  /** A byte through the register. */
  function Enter(x: Word, c: char): Word {
    ShiftByte(x, BitOf(c, 128), BitOf(c, 64), BitOf(c, 32), BitOf(c, 16), BitOf(c, 8), BitOf(c, 4), BitOf(c, 2), BitOf(c, 1))
  }

  /** The CRC by definition: the whole message shifted through an empty register. */
  function Register(data: string): Word {
    if data == "" then ZERO else Enter(Register(data[..|data| - 1]), data[|data| - 1])
  }

  lemma RegisterStep(data: string, index: nat)
    requires index < |data|
    ensures Register(data[..index + 1]) == Enter(Register(data[..index]), data[index])
  {
    assert data[..index + 1][..index] == data[..index];
  }

  /** `redis_cluster_crc16`: the table-driven loop computes the CRC by definition. */
  method Crc16(data: string) returns (crc: Word)
    ensures crc == Register(data)
  {
    crc := ZERO;
    for index := 0 to |data|
      invariant crc == Register(data[..index])
    {
      RegisterStep(data, index);
      var c := data[index];
      crc := TableStep(crc, BitOf(c, 128), BitOf(c, 64), BitOf(c, 32), BitOf(c, 16),
                       BitOf(c, 8), BitOf(c, 4), BitOf(c, 2), BitOf(c, 1));
    }
    assert data[..|data|] == data;
  }
}
