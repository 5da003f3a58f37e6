/**
 The field GF(2^8) of AES and its substitution table.
 */
module Galois {
  // ----- Multiplication -----------------------------------------------------

  /** `_xtime`: multiplication by x, on a byte. */
  function Xtime(a: bv8): bv8 {
    if a & 0x80 != 0 then (a << 1) ^ 0x1B else a << 1
  }

  /** The product of two polynomials over GF(2), not yet reduced. */
  function Product(a: bv8, b: bv8): bv16 {
    var p := a as bv16;
    (if b & 0x01 != 0 then p else 0) ^ (if b & 0x02 != 0 then p << 1 else 0)
    ^ (if b & 0x04 != 0 then p << 2 else 0) ^ (if b & 0x08 != 0 then p << 3 else 0)
    ^ (if b & 0x10 != 0 then p << 4 else 0) ^ (if b & 0x20 != 0 then p << 5 else 0)
    ^ (if b & 0x40 != 0 then p << 6 else 0) ^ (if b & 0x80 != 0 then p << 7 else 0)
  }

  /** Takes away a multiple of the modulus when its leading term is there. */
  function Without(p: bv16, lead: bv16, multiple: bv16): bv16 {
    if p & lead != 0 then p ^ multiple else p
  }

  /** The remainder modulo x^8 + x^4 + x^3 + x + 1 (section 4.2 of FIPS 197). */
  function Reduced(p: bv16): bv16 {
    var q := Without(Without(Without(p, 0x4000, 0x46C0), 0x2000, 0x2360), 0x1000, 0x11B0);
    Without(Without(Without(Without(q, 0x0800, 0x08D8), 0x0400, 0x046C), 0x0200, 0x0236), 0x0100, 0x011B)
  }

  /** The product in the field. */
  function Mul(a: bv8, b: bv8): bv8 {
    (Reduced(Product(a, b)) & 0xFF) as bv8
  }

  /** The sum in the field. */
  function Add(a: bv8, b: bv8): bv8 {
    a ^ b
  }

  /** `_xtime`, and its sum with its argument, are products in the field. */
  lemma XtimeMultiplies(a: bv8)
    ensures Mul(a, 1) == a && Mul(a, 2) == Xtime(a) && Mul(a, 3) == Xtime(a) ^ a
  {
    TimesThree(a);
  }

  lemma TimesThree(a: bv8)
    ensures Mul(a, 3) == Xtime(a) ^ a
  {
  }

  lemma XtimeIsLinear(a: bv8, b: bv8)
    ensures Xtime(a ^ b) == Xtime(a) ^ Xtime(b)
  {
    ShiftOfXor(a, b);
    LeadOfXor(a, b);
    XorCancels(a << 1, b << 1, 0x1B);
  }

  lemma ShiftOfXor(a: bv8, b: bv8)
    ensures (a ^ b) << 1 == (a << 1) ^ (b << 1)
  {
  }

  lemma LeadOfXor(a: bv8, b: bv8)
    ensures ((a ^ b) & 0x80 != 0) <==> ((a & 0x80 != 0) != (b & 0x80 != 0))
  {
  }

  lemma XorCancels(a: bv8, b: bv8, c: bv8)
    ensures (a ^ c) ^ (b ^ c) == a ^ b
    ensures a ^ (b ^ c) == (a ^ b) ^ c == (a ^ c) ^ b
  {
  }

  // ----- The table ----------------------------------------------------------

  type Row = r: seq<bv8> | |r| == 16 witness seq(16, i => 0)

  const S0: Row := [0x63, 0x7C, 0x77, 0x7B, 0xF2, 0x6B, 0x6F, 0xC5, 0x30, 0x01, 0x67, 0x2B, 0xFE, 0xD7, 0xAB, 0x76]
  const S1: Row := [0xCA, 0x82, 0xC9, 0x7D, 0xFA, 0x59, 0x47, 0xF0, 0xAD, 0xD4, 0xA2, 0xAF, 0x9C, 0xA4, 0x72, 0xC0]
  const S2: Row := [0xB7, 0xFD, 0x93, 0x26, 0x36, 0x3F, 0xF7, 0xCC, 0x34, 0xA5, 0xE5, 0xF1, 0x71, 0xD8, 0x31, 0x15]
  const S3: Row := [0x04, 0xC7, 0x23, 0xC3, 0x18, 0x96, 0x05, 0x9A, 0x07, 0x12, 0x80, 0xE2, 0xEB, 0x27, 0xB2, 0x75]
  const S4: Row := [0x09, 0x83, 0x2C, 0x1A, 0x1B, 0x6E, 0x5A, 0xA0, 0x52, 0x3B, 0xD6, 0xB3, 0x29, 0xE3, 0x2F, 0x84]
  const S5: Row := [0x53, 0xD1, 0x00, 0xED, 0x20, 0xFC, 0xB1, 0x5B, 0x6A, 0xCB, 0xBE, 0x39, 0x4A, 0x4C, 0x58, 0xCF]
  const S6: Row := [0xD0, 0xEF, 0xAA, 0xFB, 0x43, 0x4D, 0x33, 0x85, 0x45, 0xF9, 0x02, 0x7F, 0x50, 0x3C, 0x9F, 0xA8]
  const S7: Row := [0x51, 0xA3, 0x40, 0x8F, 0x92, 0x9D, 0x38, 0xF5, 0xBC, 0xB6, 0xDA, 0x21, 0x10, 0xFF, 0xF3, 0xD2]
  const S8: Row := [0xCD, 0x0C, 0x13, 0xEC, 0x5F, 0x97, 0x44, 0x17, 0xC4, 0xA7, 0x7E, 0x3D, 0x64, 0x5D, 0x19, 0x73]
  const S9: Row := [0x60, 0x81, 0x4F, 0xDC, 0x22, 0x2A, 0x90, 0x88, 0x46, 0xEE, 0xB8, 0x14, 0xDE, 0x5E, 0x0B, 0xDB]
  const SA: Row := [0xE0, 0x32, 0x3A, 0x0A, 0x49, 0x06, 0x24, 0x5C, 0xC2, 0xD3, 0xAC, 0x62, 0x91, 0x95, 0xE4, 0x79]
  const SB: Row := [0xE7, 0xC8, 0x37, 0x6D, 0x8D, 0xD5, 0x4E, 0xA9, 0x6C, 0x56, 0xF4, 0xEA, 0x65, 0x7A, 0xAE, 0x08]
  const SC: Row := [0xBA, 0x78, 0x25, 0x2E, 0x1C, 0xA6, 0xB4, 0xC6, 0xE8, 0xDD, 0x74, 0x1F, 0x4B, 0xBD, 0x8B, 0x8A]
  const SD: Row := [0x70, 0x3E, 0xB5, 0x66, 0x48, 0x03, 0xF6, 0x0E, 0x61, 0x35, 0x57, 0xB9, 0x86, 0xC1, 0x1D, 0x9E]
  const SE: Row := [0xE1, 0xF8, 0x98, 0x11, 0x69, 0xD9, 0x8E, 0x94, 0x9B, 0x1E, 0x87, 0xE9, 0xCE, 0x55, 0x28, 0xDF]
  const SF: Row := [0x8C, 0xA1, 0x89, 0x0D, 0xBF, 0xE6, 0x42, 0x68, 0x41, 0x99, 0x2D, 0x0F, 0xB0, 0x54, 0xBB, 0x16]

  type Table = t: seq<bv8> | |t| == 256 witness seq(256, i => 0)

  const SBOX: Table := S0 + S1 + S2 + S3 + S4 + S5 + S6 + S7 + S8 + S9 + SA + SB + SC + SD + SE + SF

  /** The affine map of section 5.1.1 of FIPS 197. */
  function Affine(b: bv8): bv8 {
    b ^ ((b << 1) | (b >> 7)) ^ ((b << 2) | (b >> 6)) ^ ((b << 3) | (b >> 5)) ^ ((b << 4) | (b >> 4)) ^ 0x63
  }

  /** Its inverse. */
  function Unaffine(s: bv8): bv8 {
    ((s << 1) | (s >> 7)) ^ ((s << 3) | (s >> 5)) ^ ((s << 6) | (s >> 2)) ^ 0x05
  }

  /** s is the affine image of the multiplicative inverse of x, with 0 its own inverse. */
  predicate Substitutes(x: bv8, s: bv8) {
    var y := Unaffine(s);
    Affine(y) == s && if x == 0 then y == 0 else Mul(x, y) == 1
  }

  lemma Low0(b: bv8)
    requires b < 0x08
    ensures Substitutes(b, S0[b as int - 0x00])
  {
    if {
      case b == 0x00 => assert S0[0] == 0x63; case b == 0x01 => assert S0[1] == 0x7C;
      case b == 0x02 => assert S0[2] == 0x77; case b == 0x03 => assert S0[3] == 0x7B;
      case b == 0x04 => assert S0[4] == 0xF2; case b == 0x05 => assert S0[5] == 0x6B;
      case b == 0x06 => assert S0[6] == 0x6F; case b == 0x07 => assert S0[7] == 0xC5;
    }
  }

  lemma High0(b: bv8)
    requires 0x08 <= b < 0x10
    ensures Substitutes(b, S0[b as int - 0x00])
  {
    if {
      case b == 0x08 => assert S0[8] == 0x30; case b == 0x09 => assert S0[9] == 0x01;
      case b == 0x0A => assert S0[10] == 0x67; case b == 0x0B => assert S0[11] == 0x2B;
      case b == 0x0C => assert S0[12] == 0xFE; case b == 0x0D => assert S0[13] == 0xD7;
      case b == 0x0E => assert S0[14] == 0xAB; case b == 0x0F => assert S0[15] == 0x76;
    }
  }

  lemma Low1(b: bv8)
    requires 0x10 <= b < 0x18
    ensures Substitutes(b, S1[b as int - 0x10])
  {
    if {
      case b == 0x10 => assert S1[0] == 0xCA; case b == 0x11 => assert S1[1] == 0x82;
      case b == 0x12 => assert S1[2] == 0xC9; case b == 0x13 => assert S1[3] == 0x7D;
      case b == 0x14 => assert S1[4] == 0xFA; case b == 0x15 => assert S1[5] == 0x59;
      case b == 0x16 => assert S1[6] == 0x47; case b == 0x17 => assert S1[7] == 0xF0;
    }
  }

  lemma High1(b: bv8)
    requires 0x18 <= b < 0x20
    ensures Substitutes(b, S1[b as int - 0x10])
  {
    if {
      case b == 0x18 => assert S1[8] == 0xAD; case b == 0x19 => assert S1[9] == 0xD4;
      case b == 0x1A => assert S1[10] == 0xA2; case b == 0x1B => assert S1[11] == 0xAF;
      case b == 0x1C => assert S1[12] == 0x9C; case b == 0x1D => assert S1[13] == 0xA4;
      case b == 0x1E => assert S1[14] == 0x72; case b == 0x1F => assert S1[15] == 0xC0;
    }
  }

  lemma Low2(b: bv8)
    requires 0x20 <= b < 0x28
    ensures Substitutes(b, S2[b as int - 0x20])
  {
    if {
      case b == 0x20 => assert S2[0] == 0xB7; case b == 0x21 => assert S2[1] == 0xFD;
      case b == 0x22 => assert S2[2] == 0x93; case b == 0x23 => assert S2[3] == 0x26;
      case b == 0x24 => assert S2[4] == 0x36; case b == 0x25 => assert S2[5] == 0x3F;
      case b == 0x26 => assert S2[6] == 0xF7; case b == 0x27 => assert S2[7] == 0xCC;
    }
  }

  lemma High2(b: bv8)
    requires 0x28 <= b < 0x30
    ensures Substitutes(b, S2[b as int - 0x20])
  {
    if {
      case b == 0x28 => assert S2[8] == 0x34; case b == 0x29 => assert S2[9] == 0xA5;
      case b == 0x2A => assert S2[10] == 0xE5; case b == 0x2B => assert S2[11] == 0xF1;
      case b == 0x2C => assert S2[12] == 0x71; case b == 0x2D => assert S2[13] == 0xD8;
      case b == 0x2E => assert S2[14] == 0x31; case b == 0x2F => assert S2[15] == 0x15;
    }
  }

  lemma Low3(b: bv8)
    requires 0x30 <= b < 0x38
    ensures Substitutes(b, S3[b as int - 0x30])
  {
    if {
      case b == 0x30 => assert S3[0] == 0x04; case b == 0x31 => assert S3[1] == 0xC7;
      case b == 0x32 => assert S3[2] == 0x23; case b == 0x33 => assert S3[3] == 0xC3;
      case b == 0x34 => assert S3[4] == 0x18; case b == 0x35 => assert S3[5] == 0x96;
      case b == 0x36 => assert S3[6] == 0x05; case b == 0x37 => assert S3[7] == 0x9A;
    }
  }

  lemma High3(b: bv8)
    requires 0x38 <= b < 0x40
    ensures Substitutes(b, S3[b as int - 0x30])
  {
    if {
      case b == 0x38 => assert S3[8] == 0x07; case b == 0x39 => assert S3[9] == 0x12;
      case b == 0x3A => assert S3[10] == 0x80; case b == 0x3B => assert S3[11] == 0xE2;
      case b == 0x3C => assert S3[12] == 0xEB; case b == 0x3D => assert S3[13] == 0x27;
      case b == 0x3E => assert S3[14] == 0xB2; case b == 0x3F => assert S3[15] == 0x75;
    }
  }

  lemma Low4(b: bv8)
    requires 0x40 <= b < 0x48
    ensures Substitutes(b, S4[b as int - 0x40])
  {
    if {
      case b == 0x40 => assert S4[0] == 0x09; case b == 0x41 => assert S4[1] == 0x83;
      case b == 0x42 => assert S4[2] == 0x2C; case b == 0x43 => assert S4[3] == 0x1A;
      case b == 0x44 => assert S4[4] == 0x1B; case b == 0x45 => assert S4[5] == 0x6E;
      case b == 0x46 => assert S4[6] == 0x5A; case b == 0x47 => assert S4[7] == 0xA0;
    }
  }

  lemma High4(b: bv8)
    requires 0x48 <= b < 0x50
    ensures Substitutes(b, S4[b as int - 0x40])
  {
    if {
      case b == 0x48 => assert S4[8] == 0x52; case b == 0x49 => assert S4[9] == 0x3B;
      case b == 0x4A => assert S4[10] == 0xD6; case b == 0x4B => assert S4[11] == 0xB3;
      case b == 0x4C => assert S4[12] == 0x29; case b == 0x4D => assert S4[13] == 0xE3;
      case b == 0x4E => assert S4[14] == 0x2F; case b == 0x4F => assert S4[15] == 0x84;
    }
  }

  lemma Low5(b: bv8)
    requires 0x50 <= b < 0x58
    ensures Substitutes(b, S5[b as int - 0x50])
  {
    if {
      case b == 0x50 => assert S5[0] == 0x53; case b == 0x51 => assert S5[1] == 0xD1;
      case b == 0x52 => assert S5[2] == 0x00; case b == 0x53 => assert S5[3] == 0xED;
      case b == 0x54 => assert S5[4] == 0x20; case b == 0x55 => assert S5[5] == 0xFC;
      case b == 0x56 => assert S5[6] == 0xB1; case b == 0x57 => assert S5[7] == 0x5B;
    }
  }

  lemma High5(b: bv8)
    requires 0x58 <= b < 0x60
    ensures Substitutes(b, S5[b as int - 0x50])
  {
    if {
      case b == 0x58 => assert S5[8] == 0x6A; case b == 0x59 => assert S5[9] == 0xCB;
      case b == 0x5A => assert S5[10] == 0xBE; case b == 0x5B => assert S5[11] == 0x39;
      case b == 0x5C => assert S5[12] == 0x4A; case b == 0x5D => assert S5[13] == 0x4C;
      case b == 0x5E => assert S5[14] == 0x58; case b == 0x5F => assert S5[15] == 0xCF;
    }
  }

  lemma Low6(b: bv8)
    requires 0x60 <= b < 0x68
    ensures Substitutes(b, S6[b as int - 0x60])
  {
    if {
      case b == 0x60 => assert S6[0] == 0xD0; case b == 0x61 => assert S6[1] == 0xEF;
      case b == 0x62 => assert S6[2] == 0xAA; case b == 0x63 => assert S6[3] == 0xFB;
      case b == 0x64 => assert S6[4] == 0x43; case b == 0x65 => assert S6[5] == 0x4D;
      case b == 0x66 => assert S6[6] == 0x33; case b == 0x67 => assert S6[7] == 0x85;
    }
  }

  lemma High6(b: bv8)
    requires 0x68 <= b < 0x70
    ensures Substitutes(b, S6[b as int - 0x60])
  {
    if {
      case b == 0x68 => assert S6[8] == 0x45; case b == 0x69 => assert S6[9] == 0xF9;
      case b == 0x6A => assert S6[10] == 0x02; case b == 0x6B => assert S6[11] == 0x7F;
      case b == 0x6C => assert S6[12] == 0x50; case b == 0x6D => assert S6[13] == 0x3C;
      case b == 0x6E => assert S6[14] == 0x9F; case b == 0x6F => assert S6[15] == 0xA8;
    }
  }

  lemma Low7(b: bv8)
    requires 0x70 <= b < 0x78
    ensures Substitutes(b, S7[b as int - 0x70])
  {
    if {
      case b == 0x70 => assert S7[0] == 0x51; case b == 0x71 => assert S7[1] == 0xA3;
      case b == 0x72 => assert S7[2] == 0x40; case b == 0x73 => assert S7[3] == 0x8F;
      case b == 0x74 => assert S7[4] == 0x92; case b == 0x75 => assert S7[5] == 0x9D;
      case b == 0x76 => assert S7[6] == 0x38; case b == 0x77 => assert S7[7] == 0xF5;
    }
  }

  lemma High7(b: bv8)
    requires 0x78 <= b < 0x80
    ensures Substitutes(b, S7[b as int - 0x70])
  {
    if {
      case b == 0x78 => assert S7[8] == 0xBC; case b == 0x79 => assert S7[9] == 0xB6;
      case b == 0x7A => assert S7[10] == 0xDA; case b == 0x7B => assert S7[11] == 0x21;
      case b == 0x7C => assert S7[12] == 0x10; case b == 0x7D => assert S7[13] == 0xFF;
      case b == 0x7E => assert S7[14] == 0xF3; case b == 0x7F => assert S7[15] == 0xD2;
    }
  }

  lemma Low8(b: bv8)
    requires 0x80 <= b < 0x88
    ensures Substitutes(b, S8[b as int - 0x80])
  {
    if {
      case b == 0x80 => assert S8[0] == 0xCD; case b == 0x81 => assert S8[1] == 0x0C;
      case b == 0x82 => assert S8[2] == 0x13; case b == 0x83 => assert S8[3] == 0xEC;
      case b == 0x84 => assert S8[4] == 0x5F; case b == 0x85 => assert S8[5] == 0x97;
      case b == 0x86 => assert S8[6] == 0x44; case b == 0x87 => assert S8[7] == 0x17;
    }
  }

  lemma High8(b: bv8)
    requires 0x88 <= b < 0x90
    ensures Substitutes(b, S8[b as int - 0x80])
  {
    if {
      case b == 0x88 => assert S8[8] == 0xC4; case b == 0x89 => assert S8[9] == 0xA7;
      case b == 0x8A => assert S8[10] == 0x7E; case b == 0x8B => assert S8[11] == 0x3D;
      case b == 0x8C => assert S8[12] == 0x64; case b == 0x8D => assert S8[13] == 0x5D;
      case b == 0x8E => assert S8[14] == 0x19; case b == 0x8F => assert S8[15] == 0x73;
    }
  }

  lemma Low9(b: bv8)
    requires 0x90 <= b < 0x98
    ensures Substitutes(b, S9[b as int - 0x90])
  {
    if {
      case b == 0x90 => assert S9[0] == 0x60; case b == 0x91 => assert S9[1] == 0x81;
      case b == 0x92 => assert S9[2] == 0x4F; case b == 0x93 => assert S9[3] == 0xDC;
      case b == 0x94 => assert S9[4] == 0x22; case b == 0x95 => assert S9[5] == 0x2A;
      case b == 0x96 => assert S9[6] == 0x90; case b == 0x97 => assert S9[7] == 0x88;
    }
  }

  lemma High9(b: bv8)
    requires 0x98 <= b < 0xA0
    ensures Substitutes(b, S9[b as int - 0x90])
  {
    if {
      case b == 0x98 => assert S9[8] == 0x46; case b == 0x99 => assert S9[9] == 0xEE;
      case b == 0x9A => assert S9[10] == 0xB8; case b == 0x9B => assert S9[11] == 0x14;
      case b == 0x9C => assert S9[12] == 0xDE; case b == 0x9D => assert S9[13] == 0x5E;
      case b == 0x9E => assert S9[14] == 0x0B; case b == 0x9F => assert S9[15] == 0xDB;
    }
  }

  lemma LowA(b: bv8)
    requires 0xA0 <= b < 0xA8
    ensures Substitutes(b, SA[b as int - 0xA0])
  {
    if {
      case b == 0xA0 => assert SA[0] == 0xE0; case b == 0xA1 => assert SA[1] == 0x32;
      case b == 0xA2 => assert SA[2] == 0x3A; case b == 0xA3 => assert SA[3] == 0x0A;
      case b == 0xA4 => assert SA[4] == 0x49; case b == 0xA5 => assert SA[5] == 0x06;
      case b == 0xA6 => assert SA[6] == 0x24; case b == 0xA7 => assert SA[7] == 0x5C;
    }
  }

  lemma HighA(b: bv8)
    requires 0xA8 <= b < 0xB0
    ensures Substitutes(b, SA[b as int - 0xA0])
  {
    if {
      case b == 0xA8 => assert SA[8] == 0xC2; case b == 0xA9 => assert SA[9] == 0xD3;
      case b == 0xAA => assert SA[10] == 0xAC; case b == 0xAB => assert SA[11] == 0x62;
      case b == 0xAC => assert SA[12] == 0x91; case b == 0xAD => assert SA[13] == 0x95;
      case b == 0xAE => assert SA[14] == 0xE4; case b == 0xAF => assert SA[15] == 0x79;
    }
  }

  lemma LowB(b: bv8)
    requires 0xB0 <= b < 0xB8
    ensures Substitutes(b, SB[b as int - 0xB0])
  {
    if {
      case b == 0xB0 => assert SB[0] == 0xE7; case b == 0xB1 => assert SB[1] == 0xC8;
      case b == 0xB2 => assert SB[2] == 0x37; case b == 0xB3 => assert SB[3] == 0x6D;
      case b == 0xB4 => assert SB[4] == 0x8D; case b == 0xB5 => assert SB[5] == 0xD5;
      case b == 0xB6 => assert SB[6] == 0x4E; case b == 0xB7 => assert SB[7] == 0xA9;
    }
  }

  lemma HighB(b: bv8)
    requires 0xB8 <= b < 0xC0
    ensures Substitutes(b, SB[b as int - 0xB0])
  {
    if {
      case b == 0xB8 => assert SB[8] == 0x6C; case b == 0xB9 => assert SB[9] == 0x56;
      case b == 0xBA => assert SB[10] == 0xF4; case b == 0xBB => assert SB[11] == 0xEA;
      case b == 0xBC => assert SB[12] == 0x65; case b == 0xBD => assert SB[13] == 0x7A;
      case b == 0xBE => assert SB[14] == 0xAE; case b == 0xBF => assert SB[15] == 0x08;
    }
  }

  lemma LowC(b: bv8)
    requires 0xC0 <= b < 0xC8
    ensures Substitutes(b, SC[b as int - 0xC0])
  {
    if {
      case b == 0xC0 => assert SC[0] == 0xBA; case b == 0xC1 => assert SC[1] == 0x78;
      case b == 0xC2 => assert SC[2] == 0x25; case b == 0xC3 => assert SC[3] == 0x2E;
      case b == 0xC4 => assert SC[4] == 0x1C; case b == 0xC5 => assert SC[5] == 0xA6;
      case b == 0xC6 => assert SC[6] == 0xB4; case b == 0xC7 => assert SC[7] == 0xC6;
    }
  }

  lemma HighC(b: bv8)
    requires 0xC8 <= b < 0xD0
    ensures Substitutes(b, SC[b as int - 0xC0])
  {
    if {
      case b == 0xC8 => assert SC[8] == 0xE8; case b == 0xC9 => assert SC[9] == 0xDD;
      case b == 0xCA => assert SC[10] == 0x74; case b == 0xCB => assert SC[11] == 0x1F;
      case b == 0xCC => assert SC[12] == 0x4B; case b == 0xCD => assert SC[13] == 0xBD;
      case b == 0xCE => assert SC[14] == 0x8B; case b == 0xCF => assert SC[15] == 0x8A;
    }
  }

  lemma LowD(b: bv8)
    requires 0xD0 <= b < 0xD8
    ensures Substitutes(b, SD[b as int - 0xD0])
  {
    if {
      case b == 0xD0 => assert SD[0] == 0x70; case b == 0xD1 => assert SD[1] == 0x3E;
      case b == 0xD2 => assert SD[2] == 0xB5; case b == 0xD3 => assert SD[3] == 0x66;
      case b == 0xD4 => assert SD[4] == 0x48; case b == 0xD5 => assert SD[5] == 0x03;
      case b == 0xD6 => assert SD[6] == 0xF6; case b == 0xD7 => assert SD[7] == 0x0E;
    }
  }

  lemma HighD(b: bv8)
    requires 0xD8 <= b < 0xE0
    ensures Substitutes(b, SD[b as int - 0xD0])
  {
    if {
      case b == 0xD8 => assert SD[8] == 0x61; case b == 0xD9 => assert SD[9] == 0x35;
      case b == 0xDA => assert SD[10] == 0x57; case b == 0xDB => assert SD[11] == 0xB9;
      case b == 0xDC => assert SD[12] == 0x86; case b == 0xDD => assert SD[13] == 0xC1;
      case b == 0xDE => assert SD[14] == 0x1D; case b == 0xDF => assert SD[15] == 0x9E;
    }
  }

  lemma LowE(b: bv8)
    requires 0xE0 <= b < 0xE8
    ensures Substitutes(b, SE[b as int - 0xE0])
  {
    if {
      case b == 0xE0 => assert SE[0] == 0xE1; case b == 0xE1 => assert SE[1] == 0xF8;
      case b == 0xE2 => assert SE[2] == 0x98; case b == 0xE3 => assert SE[3] == 0x11;
      case b == 0xE4 => assert SE[4] == 0x69; case b == 0xE5 => assert SE[5] == 0xD9;
      case b == 0xE6 => assert SE[6] == 0x8E; case b == 0xE7 => assert SE[7] == 0x94;
    }
  }

  lemma HighE(b: bv8)
    requires 0xE8 <= b < 0xF0
    ensures Substitutes(b, SE[b as int - 0xE0])
  {
    if {
      case b == 0xE8 => assert SE[8] == 0x9B; case b == 0xE9 => assert SE[9] == 0x1E;
      case b == 0xEA => assert SE[10] == 0x87; case b == 0xEB => assert SE[11] == 0xE9;
      case b == 0xEC => assert SE[12] == 0xCE; case b == 0xED => assert SE[13] == 0x55;
      case b == 0xEE => assert SE[14] == 0x28; case b == 0xEF => assert SE[15] == 0xDF;
    }
  }

  lemma LowF(b: bv8)
    requires 0xF0 <= b < 0xF8
    ensures Substitutes(b, SF[b as int - 0xF0])
  {
    if {
      case b == 0xF0 => assert SF[0] == 0x8C; case b == 0xF1 => assert SF[1] == 0xA1;
      case b == 0xF2 => assert SF[2] == 0x89; case b == 0xF3 => assert SF[3] == 0x0D;
      case b == 0xF4 => assert SF[4] == 0xBF; case b == 0xF5 => assert SF[5] == 0xE6;
      case b == 0xF6 => assert SF[6] == 0x42; case b == 0xF7 => assert SF[7] == 0x68;
    }
  }

  lemma HighF(b: bv8)
    requires 0xF8 <= b
    ensures Substitutes(b, SF[b as int - 0xF0])
  {
    if {
      case b == 0xF8 => assert SF[8] == 0x41; case b == 0xF9 => assert SF[9] == 0x99;
      case b == 0xFA => assert SF[10] == 0x2D; case b == 0xFB => assert SF[11] == 0x0F;
      case b == 0xFC => assert SF[12] == 0xB0; case b == 0xFD => assert SF[13] == 0x54;
      case b == 0xFE => assert SF[14] == 0xBB; case b == 0xFF => assert SF[15] == 0x16;
    }
  }

  lemma RowsOfTable(i: nat)
    requires i < 16
    ensures SBOX[i] == S0[i] && SBOX[0x10 + i] == S1[i] && SBOX[0x20 + i] == S2[i] && SBOX[0x30 + i] == S3[i]
    ensures SBOX[0x40 + i] == S4[i] && SBOX[0x50 + i] == S5[i] && SBOX[0x60 + i] == S6[i] && SBOX[0x70 + i] == S7[i]
    ensures SBOX[0x80 + i] == S8[i] && SBOX[0x90 + i] == S9[i] && SBOX[0xA0 + i] == SA[i] && SBOX[0xB0 + i] == SB[i]
    ensures SBOX[0xC0 + i] == SC[i] && SBOX[0xD0 + i] == SD[i] && SBOX[0xE0 + i] == SE[i] && SBOX[0xF0 + i] == SF[i]
  {
    hide S0, S1, S2, S3, S4, S5, S6, S7, S8, S9, SA, SB, SC, SD, SE, SF;
  }

  /** Every entry of the table is the one section 5.1.1 of FIPS 197 defines. */
  lemma TableSubstitutes(b: bv8)
    ensures Substitutes(b, SBOX[b as int])
  {
    hide Substitutes, SBOX, S0, S1, S2, S3, S4, S5, S6, S7, S8, S9, SA, SB, SC, SD, SE, SF;
    if {
      case b < 0x10 =>
        RowsOfTable(b as int - 0x00);
        if b < 0x08 { Low0(b); } else { High0(b); }
      case 0x10 <= b < 0x20 =>
        RowsOfTable(b as int - 0x10);
        if b < 0x18 { Low1(b); } else { High1(b); }
      case 0x20 <= b < 0x30 =>
        RowsOfTable(b as int - 0x20);
        if b < 0x28 { Low2(b); } else { High2(b); }
      case 0x30 <= b < 0x40 =>
        RowsOfTable(b as int - 0x30);
        if b < 0x38 { Low3(b); } else { High3(b); }
      case 0x40 <= b < 0x50 =>
        RowsOfTable(b as int - 0x40);
        if b < 0x48 { Low4(b); } else { High4(b); }
      case 0x50 <= b < 0x60 =>
        RowsOfTable(b as int - 0x50);
        if b < 0x58 { Low5(b); } else { High5(b); }
      case 0x60 <= b < 0x70 =>
        RowsOfTable(b as int - 0x60);
        if b < 0x68 { Low6(b); } else { High6(b); }
      case 0x70 <= b < 0x80 =>
        RowsOfTable(b as int - 0x70);
        if b < 0x78 { Low7(b); } else { High7(b); }
      case 0x80 <= b < 0x90 =>
        RowsOfTable(b as int - 0x80);
        if b < 0x88 { Low8(b); } else { High8(b); }
      case 0x90 <= b < 0xA0 =>
        RowsOfTable(b as int - 0x90);
        if b < 0x98 { Low9(b); } else { High9(b); }
      case 0xA0 <= b < 0xB0 =>
        RowsOfTable(b as int - 0xA0);
        if b < 0xA8 { LowA(b); } else { HighA(b); }
      case 0xB0 <= b < 0xC0 =>
        RowsOfTable(b as int - 0xB0);
        if b < 0xB8 { LowB(b); } else { HighB(b); }
      case 0xC0 <= b < 0xD0 =>
        RowsOfTable(b as int - 0xC0);
        if b < 0xC8 { LowC(b); } else { HighC(b); }
      case 0xD0 <= b < 0xE0 =>
        RowsOfTable(b as int - 0xD0);
        if b < 0xD8 { LowD(b); } else { HighD(b); }
      case 0xE0 <= b < 0xF0 =>
        RowsOfTable(b as int - 0xE0);
        if b < 0xE8 { LowE(b); } else { HighE(b); }
      case 0xF0 <= b =>
        RowsOfTable(b as int - 0xF0);
        if b < 0xF8 { LowF(b); } else { HighF(b); }
    }
  }

  /** The affine map loses nothing, so the entry determines the inverse. */
  lemma AffineIsInvertible(b: bv8)
    ensures Affine(Unaffine(b)) == b && Unaffine(Affine(b)) == b
  {
  }

  /** Only the inverse of b has the entry of b as its image. */
  lemma OnlyTheInverse(b: bv8, y: bv8)
    requires Affine(y) == SBOX[b as int]
    ensures if b == 0 then y == 0 else Mul(b, y) == 1
  {
    AffineIsInvertible(y);
    TableSubstitutes(b);
    hide Affine, Unaffine, Mul, SBOX;
  }
}
