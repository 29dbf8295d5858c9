/** The two lookup tables of the Modbus RTU checksum, and what their entries are. */
module ModbusCrcTables {

  /** The entry of a table row that the low half of an index selects. */
  function Pick(i: bv8, a0: bv8, a1: bv8, a2: bv8, a3: bv8, a4: bv8, a5: bv8, a6: bv8, a7: bv8,
                a8: bv8, a9: bv8, aA: bv8, aB: bv8, aC: bv8, aD: bv8, aE: bv8, aF: bv8): bv8 {
    var j := i & 0x0F;
    if j < 8 then
      if j < 4 then (if j < 2 then (if j == 0 then a0 else a1) else if j == 2 then a2 else a3)
      else if j < 6 then (if j == 4 then a4 else a5) else if j == 6 then a6 else a7
    else
      if j < 12 then (if j < 10 then (if j == 8 then a8 else a9) else if j == 10 then aA else aB)
      else if j < 14 then (if j == 12 then aC else aD) else if j == 14 then aE else aF
  }

  /** Table of CRC values for the high-order byte. */
  function TableCrcHi(i: bv8): bv8 {
    if i < 0x10 then Pick(i, 0x00, 0xC1, 0x81, 0x40, 0x01, 0xC0, 0x80, 0x41, 0x01, 0xC0, 0x80, 0x41, 0x00, 0xC1, 0x81, 0x40)
    else if i < 0x20 then Pick(i, 0x01, 0xC0, 0x80, 0x41, 0x00, 0xC1, 0x81, 0x40, 0x00, 0xC1, 0x81, 0x40, 0x01, 0xC0, 0x80, 0x41)
    else if i < 0x30 then Pick(i, 0x01, 0xC0, 0x80, 0x41, 0x00, 0xC1, 0x81, 0x40, 0x00, 0xC1, 0x81, 0x40, 0x01, 0xC0, 0x80, 0x41)
    else if i < 0x40 then Pick(i, 0x00, 0xC1, 0x81, 0x40, 0x01, 0xC0, 0x80, 0x41, 0x01, 0xC0, 0x80, 0x41, 0x00, 0xC1, 0x81, 0x40)
    else if i < 0x50 then Pick(i, 0x01, 0xC0, 0x80, 0x41, 0x00, 0xC1, 0x81, 0x40, 0x00, 0xC1, 0x81, 0x40, 0x01, 0xC0, 0x80, 0x41)
    else if i < 0x60 then Pick(i, 0x00, 0xC1, 0x81, 0x40, 0x01, 0xC0, 0x80, 0x41, 0x01, 0xC0, 0x80, 0x41, 0x00, 0xC1, 0x81, 0x40)
    else if i < 0x70 then Pick(i, 0x00, 0xC1, 0x81, 0x40, 0x01, 0xC0, 0x80, 0x41, 0x01, 0xC0, 0x80, 0x41, 0x00, 0xC1, 0x81, 0x40)
    else if i < 0x80 then Pick(i, 0x01, 0xC0, 0x80, 0x41, 0x00, 0xC1, 0x81, 0x40, 0x00, 0xC1, 0x81, 0x40, 0x01, 0xC0, 0x80, 0x41)
    else if i < 0x90 then Pick(i, 0x01, 0xC0, 0x80, 0x41, 0x00, 0xC1, 0x81, 0x40, 0x00, 0xC1, 0x81, 0x40, 0x01, 0xC0, 0x80, 0x41)
    else if i < 0xA0 then Pick(i, 0x00, 0xC1, 0x81, 0x40, 0x01, 0xC0, 0x80, 0x41, 0x01, 0xC0, 0x80, 0x41, 0x00, 0xC1, 0x81, 0x40)
    else if i < 0xB0 then Pick(i, 0x00, 0xC1, 0x81, 0x40, 0x01, 0xC0, 0x80, 0x41, 0x01, 0xC0, 0x80, 0x41, 0x00, 0xC1, 0x81, 0x40)
    else if i < 0xC0 then Pick(i, 0x01, 0xC0, 0x80, 0x41, 0x00, 0xC1, 0x81, 0x40, 0x00, 0xC1, 0x81, 0x40, 0x01, 0xC0, 0x80, 0x41)
    else if i < 0xD0 then Pick(i, 0x00, 0xC1, 0x81, 0x40, 0x01, 0xC0, 0x80, 0x41, 0x01, 0xC0, 0x80, 0x41, 0x00, 0xC1, 0x81, 0x40)
    else if i < 0xE0 then Pick(i, 0x01, 0xC0, 0x80, 0x41, 0x00, 0xC1, 0x81, 0x40, 0x00, 0xC1, 0x81, 0x40, 0x01, 0xC0, 0x80, 0x41)
    else if i < 0xF0 then Pick(i, 0x01, 0xC0, 0x80, 0x41, 0x00, 0xC1, 0x81, 0x40, 0x00, 0xC1, 0x81, 0x40, 0x01, 0xC0, 0x80, 0x41)
    else Pick(i, 0x00, 0xC1, 0x81, 0x40, 0x01, 0xC0, 0x80, 0x41, 0x01, 0xC0, 0x80, 0x41, 0x00, 0xC1, 0x81, 0x40)
  }

  /** Table of CRC values for the low-order byte. */
  function TableCrcLo(i: bv8): bv8 {
    if i < 0x10 then Pick(i, 0x00, 0xC0, 0xC1, 0x01, 0xC3, 0x03, 0x02, 0xC2, 0xC6, 0x06, 0x07, 0xC7, 0x05, 0xC5, 0xC4, 0x04)
    else if i < 0x20 then Pick(i, 0xCC, 0x0C, 0x0D, 0xCD, 0x0F, 0xCF, 0xCE, 0x0E, 0x0A, 0xCA, 0xCB, 0x0B, 0xC9, 0x09, 0x08, 0xC8)
    else if i < 0x30 then Pick(i, 0xD8, 0x18, 0x19, 0xD9, 0x1B, 0xDB, 0xDA, 0x1A, 0x1E, 0xDE, 0xDF, 0x1F, 0xDD, 0x1D, 0x1C, 0xDC)
    else if i < 0x40 then Pick(i, 0x14, 0xD4, 0xD5, 0x15, 0xD7, 0x17, 0x16, 0xD6, 0xD2, 0x12, 0x13, 0xD3, 0x11, 0xD1, 0xD0, 0x10)
    else if i < 0x50 then Pick(i, 0xF0, 0x30, 0x31, 0xF1, 0x33, 0xF3, 0xF2, 0x32, 0x36, 0xF6, 0xF7, 0x37, 0xF5, 0x35, 0x34, 0xF4)
    else if i < 0x60 then Pick(i, 0x3C, 0xFC, 0xFD, 0x3D, 0xFF, 0x3F, 0x3E, 0xFE, 0xFA, 0x3A, 0x3B, 0xFB, 0x39, 0xF9, 0xF8, 0x38)
    else if i < 0x70 then Pick(i, 0x28, 0xE8, 0xE9, 0x29, 0xEB, 0x2B, 0x2A, 0xEA, 0xEE, 0x2E, 0x2F, 0xEF, 0x2D, 0xED, 0xEC, 0x2C)
    else if i < 0x80 then Pick(i, 0xE4, 0x24, 0x25, 0xE5, 0x27, 0xE7, 0xE6, 0x26, 0x22, 0xE2, 0xE3, 0x23, 0xE1, 0x21, 0x20, 0xE0)
    else if i < 0x90 then Pick(i, 0xA0, 0x60, 0x61, 0xA1, 0x63, 0xA3, 0xA2, 0x62, 0x66, 0xA6, 0xA7, 0x67, 0xA5, 0x65, 0x64, 0xA4)
    else if i < 0xA0 then Pick(i, 0x6C, 0xAC, 0xAD, 0x6D, 0xAF, 0x6F, 0x6E, 0xAE, 0xAA, 0x6A, 0x6B, 0xAB, 0x69, 0xA9, 0xA8, 0x68)
    else if i < 0xB0 then Pick(i, 0x78, 0xB8, 0xB9, 0x79, 0xBB, 0x7B, 0x7A, 0xBA, 0xBE, 0x7E, 0x7F, 0xBF, 0x7D, 0xBD, 0xBC, 0x7C)
    else if i < 0xC0 then Pick(i, 0xB4, 0x74, 0x75, 0xB5, 0x77, 0xB7, 0xB6, 0x76, 0x72, 0xB2, 0xB3, 0x73, 0xB1, 0x71, 0x70, 0xB0)
    else if i < 0xD0 then Pick(i, 0x50, 0x90, 0x91, 0x51, 0x93, 0x53, 0x52, 0x92, 0x96, 0x56, 0x57, 0x97, 0x55, 0x95, 0x94, 0x54)
    else if i < 0xE0 then Pick(i, 0x9C, 0x5C, 0x5D, 0x9D, 0x5F, 0x9F, 0x9E, 0x5E, 0x5A, 0x9A, 0x9B, 0x5B, 0x99, 0x59, 0x58, 0x98)
    else if i < 0xF0 then Pick(i, 0x88, 0x48, 0x49, 0x89, 0x4B, 0x8B, 0x8A, 0x4A, 0x4E, 0x8E, 0x8F, 0x4F, 0x8D, 0x4D, 0x4C, 0x8C)
    else Pick(i, 0x44, 0x84, 0x85, 0x45, 0x87, 0x47, 0x46, 0x86, 0x82, 0x42, 0x43, 0x83, 0x41, 0x81, 0x80, 0x40)
  }

  // ----- the bitwise definition -----

  /** One shift of the register to the right, exclusive-or the polynomial if a one falls out. */
  function Shift(c: bv16): bv16 {
    if c & 1 == 1 then (c >> 1) ^ 0xA001 else c >> 1
  }

  function Shift4(c: bv16): bv16 {
    Shift(Shift(Shift(Shift(c))))
  }

  function Shift8(c: bv16): bv16 {
    Shift4(Shift4(c))
  }

  // ----- the tables hold what the bitwise definition gives for each byte -----

  predicate Entry(i: bv8) {
    Shift8(i as bv16) == ((TableCrcLo(i) as bv16) << 8) | TableCrcHi(i) as bv16
  }

  predicate Entries(r: bv8) {
    && Entry(r) && Entry(r | 1) && Entry(r | 2) && Entry(r | 3) && Entry(r | 4) && Entry(r | 5) && Entry(r | 6) && Entry(r | 7)
    && Entry(r | 8) && Entry(r | 9) && Entry(r | 10) && Entry(r | 11) && Entry(r | 12) && Entry(r | 13) && Entry(r | 14) && Entry(r | 15)
  }

  lemma Row0() ensures Entries(0x00) {}
  lemma Row1() ensures Entries(0x10) {}
  lemma Row2() ensures Entries(0x20) {}
  lemma Row3() ensures Entries(0x30) {}
  lemma Row4() ensures Entries(0x40) {}
  lemma Row5() ensures Entries(0x50) {}
  lemma Row6() ensures Entries(0x60) {}
  lemma Row7() ensures Entries(0x70) {}
  lemma Row8() ensures Entries(0x80) {}
  lemma Row9() ensures Entries(0x90) {}
  lemma RowA() ensures Entries(0xA0) {}
  lemma RowB() ensures Entries(0xB0) {}
  lemma RowC() ensures Entries(0xC0) {}
  lemma RowD() ensures Entries(0xD0) {}
  lemma RowE() ensures Entries(0xE0) {}
  lemma RowF() ensures Entries(0xF0) {}

  lemma InRow(r: bv8, i: bv8)
    requires Entries(r) && r & 0x0F == 0 && i & 0xF0 == r
    ensures Entry(i)
  {
    hide Entry;
  }

  lemma TableIsBitwise(i: bv8)
    ensures Entry(i)
  {
    hide Entries, Entry;
    var r := i & 0xF0;
    if r == 0x00 { Row0(); }
    else if r == 0x10 { Row1(); }
    else if r == 0x20 { Row2(); }
    else if r == 0x30 { Row3(); }
    else if r == 0x40 { Row4(); }
    else if r == 0x50 { Row5(); }
    else if r == 0x60 { Row6(); }
    else if r == 0x70 { Row7(); }
    else if r == 0x80 { Row8(); }
    else if r == 0x90 { Row9(); }
    else if r == 0xA0 { RowA(); }
    else if r == 0xB0 { RowB(); }
    else if r == 0xC0 { RowC(); }
    else if r == 0xD0 { RowD(); }
    else if r == 0xE0 { RowE(); }
    else { RowF(); }
    InRow(r, i);
  }
}
